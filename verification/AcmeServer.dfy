/** `ACMEResponder`: its handlers as they mutate the server's dictionaries. Each method is
    the stretch of a handler between two awaits. */
module AcmeServer {
  import opened Wrappers
  import opened Text
  import opened Json
  import opened Identifiers
  import opened CsrBinding
  import opened Jose
  import opened Routes
  import opened Acme
  import opened AcmeSafety
  import Base64Url

  const MAX_BODY_SIZE := 64 * 1024

  /** ASCII text as bytes. */
  function AsciiBytes(s: string): Bytes {
    seq(|s|, i requires 0 <= i < |s| => if s[i] as int < 128 then s[i] as int else 0)
  }

  /** The nonce of the given counter value. */
  function NonceText(counter: nat): string {
    Base64Url.Encode(AsciiBytes("nonce-" + Decimal(counter)))
  }

  /** The server never gives out a nonce twice. */
  lemma NonceInjective(m: nat, n: nat)
    requires NonceText(m) == NonceText(n)
    ensures m == n
  {
    hide Base64Url.Encode, Base64Url.DecodeStrict, AsciiBytes;
    var a, b := AsciiBytes("nonce-" + Decimal(m)), AsciiBytes("nonce-" + Decimal(n));
    Base64Url.StrictInverse(a, NonceText(m));
    Base64Url.StrictInverse(b, NonceText(n));
    NonceBytes(m, n);
    DecimalInjective(m, n);
  }

  lemma NonceBytes(m: nat, n: nat)
    requires AsciiBytes("nonce-" + Decimal(m)) == AsciiBytes("nonce-" + Decimal(n))
    ensures Decimal(m) == Decimal(n)
  {
    hide Decimal;
    AsciiInjective("nonce-" + Decimal(m), "nonce-" + Decimal(n));
    assert ("nonce-" + Decimal(m))[6..] == Decimal(m);
    assert ("nonce-" + Decimal(n))[6..] == Decimal(n);
  }

  lemma AsciiInjective(s: string, t: string)
    requires IsAscii(s) && IsAscii(t) && AsciiBytes(s) == AsciiBytes(t)
    ensures s == t
  {
    var a, b := AsciiBytes(s), AsciiBytes(t);
    assert |a| == |s| && |b| == |t|;
    forall i | 0 <= i < |s| ensures s[i] == t[i] {
      assert a[i] == b[i];
    }
  }

  /** What the responder does with a request whose body it has read: a body over the size
      limit is refused like a malformed one. */
  function Receive(approval: Approval, s: State, req: Request, tokens: nat -> string): (State, Outcome) {
    if ModeOf(RouteOf(req.path)).Some? && |req.raw| > MAX_BODY_SIZE then (s, Answer(Problem(400, MalformedProblem)))
    else Serve(approval, s, req, tokens)
  }

  class ACMEResponder {
    const approval: Approval
    var accounts: seq<Account>
    var orders: map<string, Order>
    var orderKeys: seq<string>
    var authzs: map<string, Authz>
    var authzKeys: seq<string>
    var certificates: map<string, Certificate>
    var nonceCounter: nat
    var accountCounter: nat
    var orderCounter: nat
    var authzCounter: nat
    var certCounter: nat

    function Current(): State
      reads this
    {
      State(accounts, orders, orderKeys, authzs, authzKeys, certificates,
            nonceCounter, accountCounter, orderCounter, authzCounter, certCounter)
    }

    constructor (approval: Approval)
      ensures Current() == EMPTY && Inv(Current())
      ensures this.approval == approval
    {
      this.approval := approval;
      accounts, orders, orderKeys, authzs, authzKeys, certificates := [], map[], [], map[], [], map[];
      nonceCounter, accountCounter, orderCounter, authzCounter, certCounter := 0, 0, 0, 0, 0;
      new;
      EmptyInv();
    }

    /** `_next_nonce`. */
    method NextNonce() returns (nonce: string)
      modifies this`nonceCounter
      ensures Current() == old(Current()).(nonceCounter := old(nonceCounter) + 1)
      ensures nonce == NonceText(nonceCounter)
    {
      nonceCounter := nonceCounter + 1;
      nonce := Base64Url.Encode(AsciiBytes("nonce-" + Decimal(nonceCounter)));
    }

    /** `_handle_new_account`. */
    method HandleNewAccount(base: string, jws: Jws) returns (r: Response)
      modifies this`accounts, this`accountCounter
      ensures (Current(), r) == NewAccount(old(Current()), base, jws)
    {
      var onlyExisting := Truthy(Get(jws.payload, "onlyReturnExisting"));
      var thumbprint := Thumbprint(Get(jws.protected, "jwk"));
      if thumbprint.None? {
        return Problem(400, MalformedProblem);
      }
      var k := 0;
      while k < |accounts|
        invariant 0 <= k <= |accounts|
        invariant FindAccount(accounts, thumbprint.value) == FindAccount(accounts[k..], thumbprint.value)
      {
        if accounts[k].thumbprint == thumbprint.value {
          return AccountDoc(200, accounts[k].url, accounts[k].contact);
        }
        assert accounts[k..][1..] == accounts[k + 1..];
        k := k + 1;
      }
      if onlyExisting {
        return Problem(400, AccountDoesNotExist);
      }
      accountCounter := accountCounter + 1;
      var contact := if "contact" in jws.payload then jws.payload["contact"] else Arr([]);
      var account := Account(AccountUrl(base, accountCounter), contact, thumbprint.value);
      accounts := accounts + [account];
      return AccountDoc(201, account.url, contact);
    }

    /** The loop of `_handle_new_order` that creates one authorization per identifier;
        `tokens` are the random challenge tokens drawn in turn. */
    method CreateAuthorizations(base: string, ids: seq<Identifier>, tokens: nat -> string)
      returns (authzUrls: seq<string>)
      modifies this`authzs, this`authzKeys, this`authzCounter
      ensures var minted := MintAuthzs(base, old(authzCounter), ids, tokens);
              && authzUrls == UrlsOf(minted)
              && authzs == StoreAuthzs(old(authzs), minted)
              && authzKeys == old(authzKeys) + authzUrls
              && authzCounter == old(authzCounter) + |ids|
    {
      hide MintAuthz, MintAuthzs, StoreAuthzs, UrlsOf;
      authzUrls := [];
      ghost var all := MintAuthzs(base, authzCounter, ids, tokens);
      NothingMinted(authzs);
      assert all[..0] == [];
      for k := 0 to |ids|
        invariant authzCounter == old(authzCounter) + k
        invariant authzs == StoreAuthzs(old(authzs), all[..k])
        invariant authzUrls == UrlsOf(all[..k])
        invariant authzKeys == old(authzKeys) + authzUrls
      {
        authzCounter := authzCounter + 1;
        var authz := MintAuthz(base, authzCounter, ids[k], tokens(k));
        MintedStep(old(authzs), base, old(authzCounter), ids, tokens, k);
        authzs := authzs[authz.url := authz];
        authzKeys := authzKeys + [authz.url];
        authzUrls := authzUrls + [authz.url];
      }
      assert all[..|ids|] == all;
    }

    /** `_handle_new_order`. */
    method HandleNewOrder(base: string, payload: map<string, Json>, tokens: nat -> string) returns (r: Response)
      modifies this`orders, this`orderKeys, this`authzs, this`authzKeys, this`orderCounter, this`authzCounter
      ensures (Current(), r) == NewOrder(old(Current()), base, payload, tokens)
    {
      hide MintAuthzs, StoreAuthzs, UrlsOf, NormalizeIdentifiers, OrderUrl, FinalizeUrl;
      var parsed := NormalizeProtocolIdentifiers(Get(payload, "identifiers"));
      if parsed.Err? {
        return Problem(400, if parsed.error == Unsupported then UnsupportedIdentifier else MalformedProblem);
      }
      orderCounter := orderCounter + 1;
      var authzUrls := CreateAuthorizations(base, parsed.value, tokens);
      var order := Order(OrderUrl(base, orderCounter), parsed.value, OrderPending, authzUrls,
                         FinalizeUrl(base, orderCounter), None);
      orders := orders[order.url := order];
      orderKeys := orderKeys + [order.url];
      return OrderDoc(201, order.url, ViewOf(order));
    }

    /** `_handle_authz`. */
    method HandleAuthz(url: string) returns (r: Response)
      ensures r == FetchAuthz(Current(), url)
    {
      if url !in authzs {
        return NotFound;
      }
      var authz := authzs[url];
      var challenges: seq<ChallengeView> := [];
      if !authz.wildcard {
        challenges := challenges + [ChallengeView(false, authz.challengeUrl, authz.token, authz.challengeStatus)];
      }
      if authz.kind == DnsKind {
        challenges := challenges + [ChallengeView(true, authz.dnsChallengeUrl, authz.token, authz.challengeStatus)];
      }
      return AuthzDoc(AuthzView(authz.status, authz.kind, authz.identifierValue, authz.wildcard, challenges));
    }

    /** The search at the start of `_handle_challenge`. */
    method SearchChallenge(url: string) returns (found: Option<string>, isDns: bool)
      requires AuthzsConsistent(authzs, authzKeys, authzCounter)
      ensures found == FindChallenge(authzs, authzKeys, url)
      ensures found.Some? ==> found.value in authzs && isDns == !HttpHit(authzs[found.value], url)
    {
      var k := 0;
      while k < |authzKeys|
        invariant 0 <= k <= |authzKeys|
        invariant FindChallenge(authzs, authzKeys, url) == FindChallenge(authzs, authzKeys[k..], url)
      {
        var authz := authzs[authzKeys[k]];
        assert authzKeys[k..][1..] == authzKeys[k + 1..];
        if !authz.wildcard && authz.challengeUrl == url {
          return Some(authzKeys[k]), false;
        }
        if authz.kind == DnsKind && authz.dnsChallengeUrl == url {
          return Some(authzKeys[k]), true;
        }
        k := k + 1;
      }
      return None, false;
    }

    /** `_handle_challenge` up to its response, or up to the call of the validator. */
    method HandleChallenge(url: string) returns (outcome: Outcome)
      requires AuthzsConsistent(authzs, authzKeys, authzCounter)
      modifies this`authzs
      ensures (Current(), outcome) == RespondChallenge(approval, old(Current()), url)
    {
      hide AuthzsConsistent, FindChallenge;
      var found, isDns := SearchChallenge(url);
      if found.None? {
        return Answer(NotFound);
      }
      var key := found.value;
      match approval {
        case AutoApprove =>
          authzs := authzs[key := authzs[key].(status := AuthzValid, challengeStatus := ChallengeValid)];
        case External =>
          return AwaitVerdict(key);
        case Never =>
          authzs := authzs[key := authzs[key].(challengeStatus := ChallengeProcessing)];
      }
      return Answer(ChallengeDoc(ChallengeView(isDns, url, authzs[key].token, authzs[key].challengeStatus)));
    }

    /** The rest of `_handle_challenge` once the validator has returned. */
    method FinishChallenge(key: string, url: string, verdict: bool) returns (r: Response)
      requires key in authzs
      modifies this`authzs
      ensures (Current(), r) == SettleChallenge(old(Current()), key, url, verdict)
    {
      if verdict {
        authzs := authzs[key := authzs[key].(status := AuthzValid, challengeStatus := ChallengeValid)];
      } else {
        authzs := authzs[key := authzs[key].(status := AuthzInvalid, challengeStatus := ChallengeInvalid)];
      }
      var authz := authzs[key];
      return ChallengeDoc(ChallengeView(!HttpHit(authz, url), url, authz.token, authz.challengeStatus));
    }

    /** The transition to "ready" shared by the two order handlers. */
    method PromoteOrder(url: string)
      requires url in orders
      modifies this`orders
      ensures Current() == Promote(old(Current()), url)
      ensures url in orders
    {
      var order := orders[url];
      if order.status == OrderPending {
        var k, allValid := 0, true;
        while k < |order.authzUrls| && allValid
          invariant 0 <= k <= |order.authzUrls|
          invariant allValid <==> forall i :: 0 <= i < k ==>
                      order.authzUrls[i] in authzs && authzs[order.authzUrls[i]].status == AuthzValid
        {
          allValid := order.authzUrls[k] in authzs && authzs[order.authzUrls[k]].status == AuthzValid;
          k := k + 1;
        }
        assert allValid <==> AllValid(Current(), order.authzUrls);
        if allValid {
          orders := orders[url := order.(status := OrderReady)];
        }
      }
    }

    /** `_handle_order`. */
    method HandleOrder(url: string) returns (r: Response)
      modifies this`orders
      ensures (Current(), r) == FetchOrder(old(Current()), url)
    {
      hide Promote;
      if url !in orders {
        return NotFound;
      }
      PromoteOrder(url);
      return OrderDoc(200, url, ViewOf(orders[url]));
    }

    /** `_handle_finalize`. */
    method HandleFinalize(base: string, path: string, payload: map<string, Json>) returns (r: Response)
      modifies this`orders, this`certificates, this`certCounter
      ensures (Current(), r) == Finalize(old(Current()), base, path, payload)
    {
      hide Promote, DecodeCsr, HasProperCsr, ProperCsr, ValidIdentifiers, ValuesOfIdentifiers, SignCsr, LastSegment,
        CertUrl, CommonNameFits;
      var url := base + "/order/" + LastSegment(path);
      if url !in orders {
        return NotFound;
      }
      PromoteOrder(url);
      var order := orders[url];
      if order.status != OrderReady {
        return Problem(403, OrderNotReady);
      }
      var decoded := DecodeAndValidateCsr(Get(payload, "csr"), order.identifiers);
      if decoded.None? {
        return Problem(400, BadCsr);
      }
      if !CommonNameFits(decoded.value.1) {
        return Unhandled;
      }
      var certificate := SignCsr(decoded.value.0, decoded.value.1);
      certCounter := certCounter + 1;
      var certUrl := CertUrl(base, certCounter);
      certificates := certificates[certUrl := certificate];
      order := order.(status := OrderValid, certificateUrl := Some(certUrl));
      orders := orders[url := order];
      return OrderDoc(200, url, OrderView(OrderValid, order.identifiers, order.authzUrls, order.finalizeUrl,
        Some(certUrl)));
    }

    /** `_handle_cert`. */
    method HandleCert(url: string) returns (r: Response)
      ensures r == FetchCertificate(Current(), url)
    {
      if url !in certificates {
        return NotFound;
      }
      return CertificateDoc(certificates[url]);
    }

    /** `__call__` from the end of the body read to the response, or to the validator. */
    method Call(req: Request, tokens: nat -> string) returns (outcome: Outcome)
      requires Inv(Current())
      modifies this
      ensures (Current(), outcome) == Receive(approval, old(Current()), req, tokens)
      ensures Safe(old(Current()), Current())
    {
      hide Inv, Safe, RouteOf, ParseJws, RespondChallenge, NewOrder, NewAccount, Finalize, FetchOrder, FetchAuthz,
        FetchCertificate, AuthzsConsistent;
      ReceiveSafe(approval, Current(), req, tokens);
      InvAuthzs(Current());
      var route := RouteOf(req.path);
      var url := req.base + req.path;
      var mode := ModeOf(route);
      if mode.None? {
        return Answer(Immediate(req));
      }
      if |req.raw| > MAX_BODY_SIZE {
        return Answer(Problem(400, MalformedProblem));
      }
      var jws := ParseJws(req.raw, mode.value);
      if jws.None? {
        return Answer(Problem(400, MalformedProblem));
      }
      var r := Response.Done;
      match route {
        case NewAccountRoute => r := HandleNewAccount(req.base, jws.value);
        case NewOrderRoute => r := HandleNewOrder(req.base, jws.value.payload, tokens);
        case AuthzRoute => r := HandleAuthz(url);
        case ChallengeRoute =>
          outcome := HandleChallenge(url);
          return;
        case FinalizeRoute => r := HandleFinalize(req.base, req.path, jws.value.payload);
        case OrderRoute => r := HandleOrder(url);
        case CertRoute => r := HandleCert(url);
        case _ =>
      }
      return Answer(r);
    }
  }

  lemma InvAuthzs(s: State)
    requires Inv(s)
    ensures AuthzsConsistent(s.authzs, s.authzKeys, s.authzCounter)
  {
    hide AuthzsConsistent, OrdersKeyed, OrdersFit, CertificatesNumbered, CertificatesOwned, CertificatesUnshared,
      Advertised;
  }

  lemma ReceiveCounts(approval: Approval, s: State, req: Request, tokens: nat -> string)
    requires Inv(s) && NoneSkipped(s)
    ensures NoneSkipped(Receive(approval, s, req, tokens).0)
  {
    hide Inv, RouteOf, Serve;
    ServeCounts(approval, s, req, tokens);
  }

  lemma ReceiveSafe(approval: Approval, s: State, req: Request, tokens: nat -> string)
    requires Inv(s)
    ensures Safe(s, Receive(approval, s, req, tokens).0)
    ensures var outcome := Receive(approval, s, req, tokens).1;
            outcome.AwaitVerdict? ==> approval == External && outcome.key in s.authzs
  {
    hide Inv, Evolves, RouteOf, Serve;
    EvolvesReflexive(s);
    ServeSafe(approval, s, req, tokens);
  }
}
