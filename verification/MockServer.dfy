/** `MockACMEServer`, the in-process server of the test utilities: one request at a time,
    no locks, one base URL. */
module MockServer {
  import opened Wrappers
  import opened Text
  import opened Json
  import opened Identifiers
  import opened CsrBinding
  import opened Jose
  import opened Routes
  import opened Acme
  import opened AcmeSafety

  /** The mock takes a certificate number before it signs, so a signature that fails leaves
      the number used up. */
  function UseNumber(s: State, response: Response): State {
    if response.Unhandled? then s.(certCounter := s.certCounter + 1) else s
  }

  /** What the mock does with a request: the sequential meaning of the protocol. It serves
      no root certificate, answers a new-nonce request other than HEAD without content, and
      has no limit on the body. */
  function MockServe(approval: Approval, s: State, base: string, path: string, head: bool, raw: Bytes,
                     tokens: nat -> string): (State, Response)
    requires approval != External
  {
    var counted := s.(nonceCounter := s.nonceCounter + 1);
    if RouteOf(path) == CaRoute then (counted, NotFound)
    else if RouteOf(path) == NewNonceRoute && !head then (counted, NoContent)
    else
      var (t, outcome) := Serve(approval, counted, Request(base, path, raw), tokens);
      if outcome.Answer? then (UseNumber(t, outcome.response), outcome.response) else (t, NotFound)
  }

  class MockACMEServer {
    const autoValidate: bool
    const baseUrl: string
    var accounts: seq<Account>
    var orders: map<string, Order>
    var orderKeys: seq<string>
    var authzs: map<string, Authz>
    var authzKeys: seq<string>
    var certificates: map<string, Certificate>
    var nonceCounter: nat
    var accountCounter: nat
    var orderCounter: nat
    var authzCounter: nat
    var certCounter: nat

    function Current(): State
      reads this
    {
      State(accounts, orders, orderKeys, authzs, authzKeys, certificates,
            nonceCounter, accountCounter, orderCounter, authzCounter, certCounter)
    }

    function Mode(): Approval {
      if autoValidate then AutoApprove else Never
    }

    constructor (autoValidate: bool, baseUrl: string)
      ensures Current() == EMPTY && Inv(Current())
      ensures this.autoValidate == autoValidate && this.baseUrl == baseUrl
    {
      this.autoValidate, this.baseUrl := autoValidate, baseUrl;
      accounts, orders, orderKeys, authzs, authzKeys, certificates := [], map[], [], map[], [], map[];
      nonceCounter, accountCounter, orderCounter, authzCounter, certCounter := 0, 0, 0, 0, 0;
      new;
      EmptyInv();
    }

    /** `_handle_new_account`. */
    method HandleNewAccount(jws: Jws) returns (r: Response)
      modifies this`accounts, this`accountCounter
      ensures (Current(), r) == NewAccount(old(Current()), baseUrl, jws)
    {
      var jwk := Get(jws.protected, "jwk");
      if !jwk.Obj? || ObjectThumbprint(jwk.fields).None? {
        return Problem(400, MalformedProblem);
      }
      var thumbprint := ObjectThumbprint(jwk.fields).value;
      var k := 0;
      while k < |accounts|
        invariant 0 <= k <= |accounts|
        invariant FindAccount(accounts, thumbprint) == FindAccount(accounts[k..], thumbprint)
      {
        if accounts[k].thumbprint == thumbprint {
          return AccountDoc(200, accounts[k].url, accounts[k].contact);
        }
        assert accounts[k..][1..] == accounts[k + 1..];
        k := k + 1;
      }
      if Truthy(Get(jws.payload, "onlyReturnExisting")) {
        return Problem(400, AccountDoesNotExist);
      }
      accountCounter := accountCounter + 1;
      var contact := if "contact" in jws.payload then jws.payload["contact"] else Arr([]);
      accounts := accounts + [Account(AccountUrl(baseUrl, accountCounter), contact, thumbprint)];
      return AccountDoc(201, AccountUrl(baseUrl, accountCounter), contact);
    }

    /** The loop of `_handle_new_order`. */
    method CreateAuthorizations(ids: seq<Identifier>, tokens: nat -> string) returns (authzUrls: seq<string>)
      modifies this`authzs, this`authzKeys, this`authzCounter
      ensures var minted := MintAuthzs(baseUrl, old(authzCounter), ids, tokens);
              && authzUrls == UrlsOf(minted)
              && authzs == StoreAuthzs(old(authzs), minted)
              && authzKeys == old(authzKeys) + authzUrls
              && authzCounter == old(authzCounter) + |ids|
    {
      hide MintAuthz, MintAuthzs, StoreAuthzs, UrlsOf;
      authzUrls := [];
      ghost var all := MintAuthzs(baseUrl, authzCounter, ids, tokens);
      NothingMinted(authzs);
      assert all[..0] == [];
      for k := 0 to |ids|
        invariant authzCounter == old(authzCounter) + k
        invariant authzs == StoreAuthzs(old(authzs), all[..k])
        invariant authzUrls == UrlsOf(all[..k])
        invariant authzKeys == old(authzKeys) + authzUrls
      {
        authzCounter := authzCounter + 1;
        var authz := MintOne(baseUrl, authzCounter, ids[k], tokens(k));
        MintedStep(old(authzs), baseUrl, old(authzCounter), ids, tokens, k);
        authzs := authzs[authz.url := authz];
        authzKeys := authzKeys + [authz.url];
        authzUrls := authzUrls + [authz.url];
      }
      assert all[..|ids|] == all;
    }

    /** `_handle_new_order`. */
    method HandleNewOrder(payload: map<string, Json>, tokens: nat -> string) returns (r: Response)
      modifies this`orders, this`orderKeys, this`authzs, this`authzKeys, this`orderCounter, this`authzCounter
      ensures (Current(), r) == NewOrder(old(Current()), baseUrl, payload, tokens)
    {
      hide MintAuthzs, StoreAuthzs, UrlsOf, NormalizeIdentifiers, OrderUrl, FinalizeUrl;
      var parsed := NormalizeProtocolIdentifiers(Get(payload, "identifiers"));
      if parsed.Err? {
        return Problem(400, if parsed.error == Unsupported then UnsupportedIdentifier else MalformedProblem);
      }
      orderCounter := orderCounter + 1;
      var authzUrls := CreateAuthorizations(parsed.value, tokens);
      var order := Order(OrderUrl(baseUrl, orderCounter), parsed.value, OrderPending, authzUrls,
                         FinalizeUrl(baseUrl, orderCounter), None);
      orders := orders[order.url := order];
      orderKeys := orderKeys + [order.url];
      return OrderDoc(201, order.url, ViewOf(order));
    }

    /** The authorization record built in the loop. */
    static method MintOne(base: string, n: nat, id: Identifier, token: string) returns (authz: Authz)
      ensures authz == MintAuthz(base, n, id, token)
    {
      hide AuthzUrl, ChallengeUrl, Decimal;
      var challengeUrl := ChallengeUrl(base, n);
      var wildcard := id.kind == DnsKind && "*." <= id.value;
      var domain := if wildcard then id.value[2..] else id.value;
      return Authz(AuthzUrl(base, n), domain, id.kind, wildcard, AuthzPending, token, challengeUrl,
                   challengeUrl + "-dns", ChallengePending);
    }

    /** `_handle_authz` with `_authorization_challenges`. */
    method HandleAuthz(url: string) returns (r: Response)
      ensures r == FetchAuthz(Current(), url)
    {
      if url !in authzs {
        return NotFound;
      }
      var authz := authzs[url];
      return AuthzDoc(AuthzView(authz.status, authz.kind, authz.identifierValue, authz.wildcard, ChallengesOf(authz)));
    }

    /** `_handle_challenge`: the search and the update are one loop here, and the reported
        type comes from the DNS test alone. */
    method HandleChallenge(url: string) returns (r: Response)
      requires AuthzsConsistent(authzs, authzKeys, authzCounter)
      modifies this`authzs
      ensures (Current(), Answer(r)) == RespondChallenge(Mode(), old(Current()), url)
    {
      var k := 0;
      while k < |authzKeys|
        invariant 0 <= k <= |authzKeys|
        invariant authzs == old(authzs)
        invariant FindChallenge(authzs, authzKeys, url) == FindChallenge(authzs, authzKeys[k..], url)
      {
        var key := authzKeys[k];
        var authz := authzs[key];
        assert authzKeys[k..][1..] == authzKeys[k + 1..];
        var isHttp := !authz.wildcard && authz.challengeUrl == url;
        var isDns := authz.kind == DnsKind && authz.dnsChallengeUrl == url;
        if isHttp || isDns {
          ChallengeHitUnique(Current(), k, k, url);
          if autoValidate {
            authzs := authzs[key := authz.(status := AuthzValid, challengeStatus := ChallengeValid)];
          } else {
            authzs := authzs[key := authz.(challengeStatus := ChallengeProcessing)];
          }
          return ChallengeDoc(ChallengeView(isDns, url, authz.token, authzs[key].challengeStatus));
        }
        k := k + 1;
      }
      return NotFound;
    }

    method MarkReady(url: string)
      requires url in orders
      modifies this`orders
      ensures Current() == Promote(old(Current()), url)
      ensures url in orders
    {
      var order := orders[url];
      if order.status == OrderPending && AllValid(Current(), order.authzUrls) {
        orders := orders[url := order.(status := OrderReady)];
      }
    }

    /** `_handle_order`. */
    method HandleOrder(url: string) returns (r: Response)
      modifies this`orders
      ensures (Current(), r) == FetchOrder(old(Current()), url)
    {
      hide Promote;
      if url !in orders {
        return NotFound;
      }
      MarkReady(url);
      return OrderDoc(200, url, ViewOf(orders[url]));
    }

    /** `_handle_finalize`: the certificate is numbered before it is signed. */
    method HandleFinalize(path: string, payload: map<string, Json>) returns (r: Response)
      modifies this`orders, this`certificates, this`certCounter
      ensures r == Finalize(old(Current()), baseUrl, path, payload).1
      ensures Current() == UseNumber(Finalize(old(Current()), baseUrl, path, payload).0, r)
    {
      hide Promote, DecodeCsr, HasProperCsr, ProperCsr, ValidIdentifiers, ValuesOfIdentifiers, SignCsr, LastSegment,
        CertUrl, CommonNameFits, ViewOf;
      var url := baseUrl + "/order/" + LastSegment(path);
      if url !in orders {
        return NotFound;
      }
      MarkReady(url);
      ghost var promoted := Current();
      var order := orders[url];
      if order.status != OrderReady {
        return Problem(403, OrderNotReady);
      }
      var decoded := DecodeAndValidateCsr(Get(payload, "csr"), order.identifiers);
      if decoded.None? {
        return Problem(400, BadCsr);
      }
      certCounter := certCounter + 1;
      var certUrl := CertUrl(baseUrl, certCounter);
      if !CommonNameFits(decoded.value.1) {
        return Unhandled;
      }
      certificates := certificates[certUrl := SignCsr(decoded.value.0, decoded.value.1)];
      orders := orders[url := order.(status := OrderValid, certificateUrl := Some(certUrl))];
      assert (Current(), OrderDoc(200, url, ViewOf(orders[url]))) ==
             Issue(promoted, baseUrl, url, SignCsr(decoded.value.0, decoded.value.1));
      return OrderDoc(200, url, ViewOf(orders[url]));
    }

    /** `_handle_request`; `head` says whether the HTTP method is HEAD. */
    method HandleRequest(path: string, head: bool, raw: Bytes, tokens: nat -> string) returns (r: Response)
      requires Inv(Current())
      modifies this
      ensures (Current(), r) == MockServe(Mode(), old(Current()), baseUrl, path, head, raw, tokens)
      ensures Inv(Current())
    {
      hide Inv, RouteOf, ParseJws, RespondChallenge, NewOrder, NewAccount, Finalize, FetchOrder, FetchAuthz,
        AuthzsConsistent;
      ghost var before := Current();
      MockSafe(Mode(), before, baseUrl, path, head, raw, tokens);
      nonceCounter := nonceCounter + 1;
      var route := RouteOf(path);
      if route == CaRoute {
        return NotFound;
      }
      if route == NewNonceRoute && !head {
        return NoContent;
      }
      var mode := ModeOf(route);
      if mode.None? {
        return Immediate(Request(baseUrl, path, raw));
      }
      var jws := ParseJws(raw, mode.value);
      if jws.None? {
        return Problem(400, MalformedProblem);
      }
      OnlyFinalizeRaises(Mode(), Current(), baseUrl, baseUrl + path, jws.value, tokens);
      r := Response.Done;
      match route {
        case NewAccountRoute => r := HandleNewAccount(jws.value);
        case NewOrderRoute => r := HandleNewOrder(jws.value.payload, tokens);
        case AuthzRoute => r := HandleAuthz(baseUrl + path);
        case ChallengeRoute => r := HandleChallenge(baseUrl + path);
        case FinalizeRoute => r := HandleFinalize(path, jws.value.payload);
        case OrderRoute => r := HandleOrder(baseUrl + path);
        case CertRoute => r := if baseUrl + path in certificates then CertificateDoc(certificates[baseUrl + path])
          else NotFound;
        case _ =>
      }
    }
  }

  /** No handler but finalization lets an exception out. */
  lemma OnlyFinalizeRaises(approval: Approval, s: State, base: string, url: string, jws: Jws, tokens: nat -> string)
    ensures !NewAccount(s, base, jws).1.Unhandled? && !NewOrder(s, base, jws.payload, tokens).1.Unhandled?
    ensures !FetchAuthz(s, url).Unhandled? && !FetchOrder(s, url).1.Unhandled? && !FetchCertificate(s, url).Unhandled?
    ensures var outcome := RespondChallenge(approval, s, url).1; outcome.Answer? ==> !outcome.response.Unhandled?
  {
    hide NormalizeIdentifiers, MintAuthzs, StoreAuthzs, FindChallenge, HttpHit, AllValid, AccountUrl, Truthy;
  }

  /** The dictionaries stay consistent when certificate numbers are skipped. */
  lemma SkippedNumbers(s: State, count: nat)
    requires Inv(s) && s.certCounter <= count
    ensures Inv(s.(certCounter := count))
  {
    hide AuthzsConsistent, OrdersKeyed, OrdersFit, CertificatesOwned, CertificatesUnshared, Advertised, LastSegment,
      Decimal;
  }

  lemma MockSafe(approval: Approval, s: State, base: string, path: string, head: bool, raw: Bytes,
                 tokens: nat -> string)
    requires approval != External && Inv(s)
    ensures Inv(MockServe(approval, s, base, path, head, raw, tokens).0)
    ensures AuthzsConsistent(s.authzs, s.authzKeys, s.authzCounter)
  {
    hide AuthzsConsistent, OrdersKeyed, OrdersFit, CertificatesNumbered, CertificatesOwned, CertificatesUnshared,
      Advertised, Evolves, Serve, RouteOf;
    var counted := s.(nonceCounter := s.nonceCounter + 1);
    ServeSafe(approval, counted, Request(base, path, raw), tokens);
    var t := Serve(approval, counted, Request(base, path, raw), tokens).0;
    SkippedNumbers(t, t.certCounter + 1);
  }

  /** Where the mock differs from the responder: a new-nonce request is answered without content
      unless it is a HEAD request, and no root certificate is served. Every request draws a
      nonce, these included. */
  lemma OwnAnswers(approval: Approval, s: State, base: string, head: bool, raw: Bytes, tokens: nat -> string)
    requires approval != External
    ensures MockServe(approval, s, base, "/new-nonce", head, raw, tokens) ==
            (s.(nonceCounter := s.nonceCounter + 1), if head then Done else NoContent)
    ensures MockServe(approval, s, base, "/ca.pem", head, raw, tokens) ==
            (s.(nonceCounter := s.nonceCounter + 1), NotFound)
  {
    hide RouteOf, Handle, ParseJws;
    FixedPaths();
  }

  lemma FixedPaths()
    ensures RouteOf("/new-nonce") == NewNonceRoute && RouteOf("/ca.pem") == CaRoute
  {
    assert "/new-nonce"[1] == 'n' && "/ca.pem"[1] == 'c' && "/ca.pem"[2] == 'a';
    assert "/cert/"[2] == 'e' && "/chall/"[2] == 'h';
    assert |"/new-nonce"| == 10 && |"/directory"| == 10 && |"/ca.pem"| == 7;
    assert "/directory"[1] == 'd';
  }
}
