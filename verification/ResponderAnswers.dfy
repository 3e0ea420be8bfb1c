/** What the responder answers to requests it refuses, and to those that read or settle a
    resource: kinds of problem, documents, and which routes want a body. */
module ResponderAnswers {
  import opened Wrappers
  import opened Json
  import opened Jose
  import opened Identifiers
  import opened Routes
  import opened Acme
  import opened AcmeSafety
  import opened AcmeServer
  import Approvals
  import CsrBinding

  // ---------------------------------------------------------------- accounts

  /** The values of `onlyReturnExisting` that are as good as none. */
  predicate Falsy(j: Json) {
    j in {Null, Bool(false), Number(0), Str(""), Arr([]), Obj(map[])}
  }

  lemma TruthyExactly(j: Json)
    ensures Truthy(j) <==> !Falsy(j)
  {
  }

  predicate HasAccount(s: State, thumbprint: string) {
    exists i :: 0 <= i < |s.accounts| && s.accounts[i].thumbprint == thumbprint
  }

  /** The account made for a new key: the payload's contact, or an empty list without one. */
  predicate MadeFor(account: Account, s: State, base: string, payload: map<string, Json>, thumbprint: string) {
    && account.url == AccountUrl(base, s.accountCounter + 1) && account.thumbprint == thumbprint
    && ("contact" in payload ==> account.contact == payload["contact"])
    && ("contact" !in payload ==> account.contact == Arr([]))
  }

  /** A request for an account is malformed without a key, is answered with the account of a
      known key, creates one for a new key unless only existing ones are wanted, and is
      otherwise refused because there is none. */
  lemma AccountAnswered(s: State, base: string, jws: Jws)
    ensures var (t, response) := NewAccount(s, base, jws);
            match Thumbprint(Get(jws.protected, "jwk"))
            case None => t == s && response == Problem(400, MalformedProblem)
            case Some(thumbprint) =>
              if HasAccount(s, thumbprint) then
                && t == s && response.AccountDoc? && response.status == 200
                && exists i :: 0 <= i < |s.accounts| && s.accounts[i].thumbprint == thumbprint
                     && s.accounts[i].url == response.location && s.accounts[i].contact == response.contact
              else if !Falsy(Get(jws.payload, "onlyReturnExisting")) then
                t == s && response == Problem(400, AccountDoesNotExist)
              else
                && |t.accounts| == |s.accounts| + 1 && t.accounts[..|s.accounts|] == s.accounts
                && var account := t.accounts[|s.accounts|];
                   MadeFor(account, s, base, jws.payload, thumbprint)
                   && response == AccountDoc(201, account.url, account.contact)
  {
    hide Truthy, Falsy, AccountUrl;
    TruthyExactly(Get(jws.payload, "onlyReturnExisting"));
    var thumbprint := Thumbprint(Get(jws.protected, "jwk"));
    if thumbprint.Some? {
      Approvals.FindAccountExact(s.accounts, thumbprint.value);
      if HasAccount(s, thumbprint.value) {
        var account := FindAccount(s.accounts, thumbprint.value).value;
        var i :| 0 <= i < |s.accounts| && s.accounts[i] == account;
      }
    }
  }

  // ---------------------------------------------------------------- orders

  /** The item names this identifier. */
  predicate ItemNames(item: Json, id: Identifier) {
    && item.Obj? && "type" in item.fields && "value" in item.fields && ValidIdentifier(id)
    && item.fields["type"] == Str(if id.kind == DnsKind then "dns" else "ip")
    && item.fields["value"] == Str(id.value)
  }

  /** The item has a type and a value, but the type is neither of the two. */
  predicate ItemUnsupported(item: Json) {
    && item.Obj? && "type" in item.fields && "value" in item.fields
    && item.fields["type"].Str? && item.fields["value"].Str? && item.fields["value"].s != ""
    && item.fields["type"].s != "dns" && item.fields["type"].s != "ip"
  }

  /** An item names an identifier, is of an unsupported type, or is malformed. */
  lemma ItemExactly(item: Json, id: Identifier)
    ensures NormalizeItem(item) == Ok(id) <==> ItemNames(item, id)
    ensures NormalizeItem(item) == Err(Unsupported) <==> ItemUnsupported(item)
  {
    hide ValidDns, ParseCanonicalAddress;
    assert |"ip"| != |"dns"|;
    if ValidIdentifier(id) { IdentifierTextNotEmpty(id); }
  }

  /** The first item that names no identifier, if there is one. */
  predicate FirstBad(items: seq<Json>, i: nat) {
    && i < |items| && NormalizeItem(items[i]).Err?
    && forall j :: 0 <= j < i ==> NormalizeItem(items[j]).Ok?
  }

  /** A new order is refused as malformed when its identifiers are no list or an empty one, and
      by its first bad item otherwise: as unsupported exactly when that item is. */
  lemma OrderAnswered(s: State, base: string, payload: map<string, Json>, tokens: nat -> string)
    ensures var raw, (t, response) := Get(payload, "identifiers"), NewOrder(s, base, payload, tokens);
            && (!raw.Arr? || raw.items == [] ==> t == s && response == Problem(400, MalformedProblem))
            && (raw.Arr? ==> forall i: nat | FirstBad(raw.items, i) ::
                  t == s && response == Problem(400, if ItemUnsupported(raw.items[i]) then UnsupportedIdentifier
                                                     else MalformedProblem))
            && (raw.Arr? && raw.items != [] && (forall i: nat :: !FirstBad(raw.items, i)) ==>
                  response.OrderDoc? && response.status == 201 && |response.order.identifiers| == |raw.items|
                  && forall i :: 0 <= i < |raw.items| ==> ItemNames(raw.items[i], response.order.identifiers[i]))
  {
    hide NormalizeItem, PlaceOrder, ItemNames, ItemUnsupported;
    var raw := Get(payload, "identifiers");
    if raw.Arr? && raw.items != [] {
      TraverseMeaning(NormalizeItem, raw.items);
      forall i | 0 <= i < |raw.items|
        ensures NormalizeItem(raw.items[i]) == Err(Unsupported) <==> ItemUnsupported(raw.items[i])
        ensures NormalizeItem(raw.items[i]).Ok? ==> ItemNames(raw.items[i], NormalizeItem(raw.items[i]).value)
      {
        ItemExactly(raw.items[i], if NormalizeItem(raw.items[i]).Ok? then NormalizeItem(raw.items[i]).value
                                  else Identifier(DnsKind, ""));
      }
      var parsed := NormalizeIdentifiers(raw);
      if parsed.Ok? {
        PlacedFor(s, base, parsed.value, tokens);
      } else {
        var k :| 0 <= k < |raw.items| && NormalizeItem(raw.items[k]) == Err(parsed.error)
                 && forall j :: 0 <= j < k ==> NormalizeItem(raw.items[j]).Ok?;
        assert FirstBad(raw.items, k);
        forall i: nat | FirstBad(raw.items, i) ensures i == k {
        }
      }
    }
  }

  lemma PlacedFor(s: State, base: string, ids: seq<Identifier>, tokens: nat -> string)
    ensures var response := PlaceOrder(s, base, ids, tokens).1;
            response.OrderDoc? && response.status == 201 && response.order.identifiers == ids
  {
    hide MintAuthzs, StoreAuthzs, OrderUrl, FinalizeUrl;
  }

  /** The authorization made for each identifier of a new order: pending, for that identifier, with
      the token drawn for it and challenge URLs of its own number. */
  lemma NewAuthorization(s: State, base: string, ids: seq<Identifier>, tokens: nat -> string, i: nat)
    requires Inv(s) && i < |ids|
    ensures var (t, response) := PlaceOrder(s, base, ids, tokens);
            && response.OrderDoc? && |response.order.authorizations| == |ids|
            && response.order.authorizations[i] in t.authzs
            && var authz, n := t.authzs[response.order.authorizations[i]], s.authzCounter + i + 1;
               && authz.token == tokens(i) && authz.status == AuthzPending && authz.challengeStatus == ChallengePending
               && Covers(authz, ids[i])
               && authz.url == AuthzUrl(base, n) && authz.challengeUrl == ChallengeUrl(base, n)
               && authz.dnsChallengeUrl == DnsChallengeUrl(base, n)
  {
    hide Inv, AuthzsConsistent, StoreAuthzs, AuthzUrl, ChallengeUrl, DnsChallengeUrl, OrderUrl, FinalizeUrl;
    InvAuthzs(s);
    PlacedAuthzs(s, base, ids, tokens);
    var minted := MintAuthzs(base, s.authzCounter, ids, tokens);
    assert minted[i] == MintAuthz(base, s.authzCounter + i + 1, ids[i], tokens(i));
  }

  // ---------------------------------------------------------------- challenges

  /** What the authorization document says each challenge is: its token and status are those of
      the authorization, and its URL says whether it is the DNS challenge. */
  lemma OfferedChallenges(s: State, key: string, i: nat)
    requires key in s.authzs && i < |ChallengesOf(s.authzs[key])|
    ensures FetchAuthz(s, key).AuthzDoc? && FetchAuthz(s, key).authz.challenges == ChallengesOf(s.authzs[key])
    ensures var authz, c := s.authzs[key], ChallengesOf(s.authzs[key])[i];
            && c.token == authz.token && c.status == authz.challengeStatus
            && c.url == (if c.isDns then authz.dnsChallengeUrl else authz.challengeUrl)
  {
  }

  /** A challenge request that is answered at once is answered with the challenge that the
      authorization document offers from then on under that URL. */
  lemma ChallengeAnswered(approval: Approval, s: State, url: string)
    requires Inv(s)
    ensures var (t, outcome) := RespondChallenge(approval, s, url);
            outcome.Answer? && outcome.response.ChallengeDoc? ==>
              && outcome.response.challenge.url == url
              && exists key :: key in t.authzs && outcome.response.challenge in ChallengesOf(t.authzs[key])
  {
    hide AuthzsConsistent, OrdersKeyed, OrdersFit, CertificatesNumbered, CertificatesOwned, CertificatesUnshared,
      Advertised, FindChallenge, HttpHit, DnsHit;
    var found := FindChallenge(s.authzs, s.authzKeys, url);
    if found.Some? && found.value in s.authzs {
      var key := found.value;
      ServedChallenges(s, key, url);
      OffersHits(s.authzs[key], url);
      var t := RespondChallenge(approval, s, url).0;
      SameHits(s.authzs[key], t.authzs[key], url);
      AnsweredOffered(t, key, url);
    }
  }

  /** What a request for an offered challenge does to its authorization: approved at once it is
      valid with its challenge, without approval only the challenge goes on to processing, and
      for the validator nothing changes yet. No other authorization changes. */
  lemma ChallengeModes(approval: Approval, s: State, key: string, url: string)
    requires Inv(s) && key in s.authzs && Offers(s.authzs[key], url)
    ensures var (t, outcome) := RespondChallenge(approval, s, url);
            && key in t.authzs
            && (forall k :: k in s.authzs && k != key ==> k in t.authzs && t.authzs[k] == s.authzs[k])
            && match approval
               case AutoApprove =>
                 t.authzs[key].status == AuthzValid && t.authzs[key].challengeStatus == ChallengeValid
               case External => t == s && outcome == AwaitVerdict(key)
               case Never =>
                 t.authzs[key].status == s.authzs[key].status && t.authzs[key].challengeStatus == ChallengeProcessing
  {
    hide Inv, FindChallenge, HttpHit, DnsHit, Offers;
    ServedChallenges(s, key, url);
  }

  lemma SameHits(authz: Authz, other: Authz, url: string)
    requires other == authz.(status := other.status, challengeStatus := other.challengeStatus)
    ensures HttpHit(authz, url) <==> HttpHit(other, url)
    ensures DnsHit(authz, url) <==> DnsHit(other, url)
  {
  }

  lemma AnsweredOffered(s: State, key: string, url: string)
    requires key in s.authzs && (HttpHit(s.authzs[key], url) || DnsHit(s.authzs[key], url))
    ensures ChallengeAnswer(s, key, url).ChallengeDoc?
    ensures ChallengeAnswer(s, key, url).challenge in ChallengesOf(s.authzs[key])
  {
    var authz, challenges := s.authzs[key], ChallengesOf(s.authzs[key]);
    if HttpHit(authz, url) {
      assert challenges[0] == ChallengeAnswer(s, key, url).challenge;
    } else {
      assert challenges[|challenges| - 1] == ChallengeAnswer(s, key, url).challenge;
    }
  }

  /** So is one that waits for the validator, once its verdict is there. */
  lemma SettledAnswered(s: State, key: string, url: string, ok: bool)
    requires key in s.authzs && (HttpHit(s.authzs[key], url) || DnsHit(s.authzs[key], url))
    ensures var (t, response) := SettleChallenge(s, key, url, ok);
            && key in t.authzs && response.ChallengeDoc? && response.challenge.url == url
            && response.challenge in ChallengesOf(t.authzs[key])
  {
    hide HttpHit, DnsHit, ChallengesOf;
    var t := SettleChallenge(s, key, url, ok).0;
    SameHits(s.authzs[key], t.authzs[key], url);
    AnsweredOffered(t, key, url);
  }

  // ---------------------------------------------------------------- routes and bodies

  /** The paths to which an object is posted. */
  predicate TakesObject(path: string) {
    || path in {"/new-account", "/new-order", "/key-change", "/revoke-cert"}
    || "/chall/" <= path || "/finalize/" <= path
  }

  /** The paths to which an empty payload is posted to read a resource. */
  predicate TakesNothing(path: string) {
    "/authz/" <= path || "/order/" <= path || "/cert/" <= path
  }

  lemma Unslashed(path: string)
    ensures TakesNothing(path) ==> !TakesObject(path)
    ensures path in {"/directory", "/new-nonce", "/ca.pem"} ==> !TakesObject(path) && !TakesNothing(path)
  {
    if |path| >= 2 && path[0] == '/' {
      assert "/authz/"[1] == 'a' && "/order/"[1] == 'o' && "/cert/"[1] == 'c' && "/cert/"[2] == 'e';
      assert "/chall/"[1] == 'c' && "/chall/"[2] == 'h' && "/finalize/"[1] == 'f';
      assert "/new-account"[1] == 'n' && "/new-order"[1] == 'n' && "/key-change"[1] == 'k' && "/revoke-cert"[1] == 'r';
    }
  }

  /** Which requests need a signed body, and of which kind. */
  lemma BodiesWanted(path: string)
    ensures ModeOf(RouteOf(path)) ==
            if TakesObject(path) then Some(ObjectMode) else if TakesNothing(path) then Some(EmptyMode) else None
  {
    Unslashed(path);
  }

  /** The answers that need no body. */
  lemma AnsweredWithoutBody(req: Request)
    requires !TakesObject(req.path) && !TakesNothing(req.path)
    ensures Immediate(req) ==
            if req.path == "/directory" then DirectoryDoc(req.base)
            else if req.path == "/new-nonce" then Done
            else if req.path == "/ca.pem" then RootDoc
            else NotFound
  {
    assert |"/directory"| == 10 && |"/new-nonce"| == 10 && |"/ca.pem"| == 7;
    assert "/directory"[1] == 'd' && "/new-nonce"[1] == 'n';
  }

  // ---------------------------------------------------------------- what is not there

  /** The resource a request would read or change does not exist. */
  predicate Missing(s: State, req: Request) {
    var url := req.base + req.path;
    match RouteOf(req.path)
    case AuthzRoute => url !in s.authzs
    case OrderRoute => url !in s.orders
    case CertRoute => url !in s.certificates
    case ChallengeRoute => forall key :: key in s.authzs ==> !Offers(s.authzs[key], url)
    case FinalizeRoute => FinalizedUrl(req.base, req.path) !in s.orders
    case _ => false
  }

  /** A request for a resource that does not exist changes nothing and is answered that there is
      nothing; one whose body is too long or cannot be parsed changes nothing and is malformed. */
  lemma NothingThere(approval: Approval, s: State, req: Request, tokens: nat -> string)
    requires Inv(s) && ModeOf(RouteOf(req.path)).Some?
    ensures var mode := ModeOf(RouteOf(req.path)).value;
            if |req.raw| > 65_536 || ParseJws(req.raw, mode).None?
            then Receive(approval, s, req, tokens) == (s, Answer(Problem(400, MalformedProblem)))
            else Missing(s, req) ==> Receive(approval, s, req, tokens) == (s, Answer(NotFound))
  {
    hide Inv, RouteOf, ParseJws, NewAccount, NewOrder, Offers, FindChallenge, AllValid, CsrBinding.DecodeCsr;
    if RouteOf(req.path) == ChallengeRoute && Missing(s, req) { NoChallenge(s, req.base + req.path); }
  }

  lemma NoChallenge(s: State, url: string)
    requires Inv(s) && forall key :: key in s.authzs ==> !Offers(s.authzs[key], url)
    ensures FindChallenge(s.authzs, s.authzKeys, url) == None
  {
    hide OrdersKeyed, OrdersFit, CertificatesNumbered, CertificatesOwned, CertificatesUnshared, Advertised, Numbered,
      Offers;
    FindChallengeIs(s.authzs, s.authzKeys, url);
    var found := FindChallenge(s.authzs, s.authzKeys, url);
    if found.Some? { OffersHits(s.authzs[found.value], url); }
  }

  /** Reading an order answers with the order as it is kept from then on, under its own URL: a
      pending one whose authorizations are all valid is ready. */
  lemma OrderRead(s: State, url: string)
    requires url in s.orders
    ensures var (t, response) := FetchOrder(s, url);
            && url in t.orders
            && t.orders[url].status ==
               (if s.orders[url].status == OrderPending
                   && (forall i :: 0 <= i < |s.orders[url].authzUrls| ==>
                         s.orders[url].authzUrls[i] in s.authzs
                         && s.authzs[s.orders[url].authzUrls[i]].status == AuthzValid)
                then OrderReady else s.orders[url].status)
            && response.OrderDoc? && response.status == 200 && response.location == url
            && response.order == OrderView(t.orders[url].status, s.orders[url].identifiers, s.orders[url].authzUrls,
                                           s.orders[url].finalizeUrl, s.orders[url].certificateUrl)
  {
  }
}
