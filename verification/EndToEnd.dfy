/** `issue` against the auto-approving responder: it succeeds, with exactly the requested
    identifiers, in a fixed number of requests. */
module EndToEnd {
  import opened Wrappers
  import opened Text
  import opened Json
  import opened Identifiers
  import opened CsrBinding
  import opened Jose
  import opened Routes
  import opened Acme
  import opened AcmeSafety
  import opened Polling
  import opened Renewal
  import opened IssueFlow
  import opened IssueSafety
  import Base64Url

  // ---------------------------------------------------------------- the wire

  /** How the client writes its requests: its JSON writer, its CSR serialization, the key it
      presents, and the nonce, account URL and signature of each request. */
  datatype Wire = Wire(
    dumps: map<string, Json> -> Bytes, derOf: Csr -> Bytes, jwk: map<string, Json>, contact: Option<Json>,
    kid: string, nonces: nat -> string, signatures: nat -> Bytes)

  /** Reading back what is written gives what was written, and the key is one. */
  ghost predicate FaithfulWire(wire: Wire) {
    && (forall fields :: Loads(wire.dumps(fields)) == Some(Obj(fields)) && wire.dumps(fields) != [])
    && (forall csr: Csr :: csr.signatureOk ==> wire.derOf(csr) != [] && LoadCsr(wire.derOf(csr)) == Some(csr))
    && ObjectThumbprint(wire.jwk).Some?
  }

  function Header(wire: Wire, url: string, body: Body, k: nat): map<string, Json> {
    var common := map["alg" := Str("ES256"), "url" := Str(url), "nonce" := Str(wire.nonces(k))];
    if body.AccountBody? then common["jwk" := Obj(wire.jwk)] else common["kid" := Str(wire.kid)]
  }

  function Fields(wire: Wire, body: Body): map<string, Json> {
    match body
    case AccountBody =>
      var agreed := map["termsOfServiceAgreed" := Bool(true)];
      if wire.contact.Some? then agreed["contact" := wire.contact.value] else agreed
    case OrderBody(ids) => map["identifiers" := Arr(WireItems(ids))]
    case CsrBody(csr) => map["csr" := Str(Base64Url.Encode(wire.derOf(csr)))]
    case _ => map[]
  }

  function Payload(wire: Wire, body: Body): Bytes {
    if body.EmptyBody? then [] else wire.dumps(Fields(wire, body))
  }

  /** The body of the k-th request. */
  function Raw(wire: Wire, url: string, body: Body, k: nat): Bytes {
    wire.dumps(JwsEncode(wire.dumps(Header(wire, url, body, k)), Payload(wire, body), wire.signatures(k)))
  }

  function BodyMode(body: Body): PayloadMode {
    if body.EmptyBody? then EmptyMode else ObjectMode
  }

  lemma ParsedBack(wire: Wire, url: string, body: Body, k: nat)
    requires FaithfulWire(wire)
    ensures ParseJws(Raw(wire, url, body, k), BodyMode(body)) ==
            Some(Jws(Header(wire, url, body, k), Fields(wire, body)))
  {
    hide Header, Fields, JwsEncode, ParseJws;
    JwsRoundTrip(Raw(wire, url, body, k), wire.dumps(Header(wire, url, body, k)), Payload(wire, body),
                 wire.signatures(k), BodyMode(body));
    NoFields(wire, body);
  }

  lemma NoFields(wire: Wire, body: Body)
    ensures body.EmptyBody? ==> Fields(wire, body) == map[]
  {
  }

  // ---------------------------------------------------------------- the responder as a world

  /** A responder in some state, and the client's wire to it. */
  datatype Scene = Scene(wire: Wire, base: string, start: State, tokens: nat -> nat -> string, root: Certificate)

  function OfferOf(challenge: ChallengeView): Offer {
    Offer(if challenge.isDns then Dns01 else Http01, challenge.url, challenge.token)
  }

  function OffersOf(challenges: seq<ChallengeView>): seq<Offer> {
    seq(|challenges|, i requires 0 <= i < |challenges| => OfferOf(challenges[i]))
  }

  function ClientView(authz: AuthzView): Authorization {
    Authorization(authz.status, authz.kind, authz.value, authz.wildcard, OffersOf(authz.challenges))
  }

  /** What the client makes of a response, given the statuses it expects. */
  function AnswerTo(body: Body, response: Response, root: Certificate): Answer {
    match (body, response)
    case (AccountBody, AccountDoc(_, location, _)) => AccountAt(location)
    case (OrderBody(_), OrderDoc(status, location, order)) => if status == 201 then OrderAt(location, order) else Raised
    case (EmptyBody, OrderDoc(status, _, order)) => if status == 200 then OrderIs(order) else Raised
    case (EmptyBody, AuthzDoc(authz)) => AuthzIs(ClientView(authz))
    case (EmptyBody, CertificateDoc(certificate)) => ChainIs(Some([certificate, root]))
    case (ReadyBody, ChallengeDoc(_)) => Answer.Done
    case (CsrBody(_), OrderDoc(status, _, order)) => if status == 200 then OrderIs(order) else Raised
    case _ => Raised
  }

  /** One request to the responder and what comes back. */
  function Exchange(scene: Scene, s: State, url: string, body: Body, k: nat): (State, Answer) {
    if !(scene.base <= url) then (s, Raised)
    else
      var request := Request(scene.base, url[|scene.base|..], Raw(scene.wire, url, body, k));
      var (after, outcome) := Serve(AutoApprove, s, request, scene.tokens(k));
      (after, if outcome.Answer? then AnswerTo(body, outcome.response, scene.root) else Raised)
  }

  datatype Sent = Sent(url: string, body: Body)

  /** The requests of a history, in order. */
  function Sends(t: Trace): seq<Sent> {
    if t == [] then []
    else
      var before, last := Sends(t[..|t| - 1]), t[|t| - 1];
      if last.Send? then before + [Sent(last.url, last.body)] else before
  }

  /** The responder's state after these calls. */
  function ServerAfter(scene: Scene, t: Trace): State {
    if t == [] then scene.start
    else
      var before, last := ServerAfter(scene, t[..|t| - 1]), t[|t| - 1];
      if last.Send? then Exchange(scene, before, last.url, last.body, |Sends(t)|).0 else before
  }

  /** The responder answers requests; handlers, store, limiter and dispatcher do not fail. */
  function ResponderWorld(scene: Scene): World {
    (t: Trace) =>
      if t == [] || !t[|t| - 1].Send? then Answer.Done
      else
        var request := t[|t| - 1];
        Exchange(scene, ServerAfter(scene, t[..|t| - 1]), request.url, request.body, |Sends(t)|).1
  }

  lemma Called(scene: Scene, t: Trace, effect: Effect)
    ensures var after := t + [effect];
            && Sends(after) == Sends(t) + (if effect.Send? then [Sent(effect.url, effect.body)] else [])
            && (!effect.Send? ==>
                  ServerAfter(scene, after) == ServerAfter(scene, t) && ResponderWorld(scene)(after) == Answer.Done)
            && (effect.Send? ==>
                  (ServerAfter(scene, after), ResponderWorld(scene)(after))
                  == Exchange(scene, ServerAfter(scene, t), effect.url, effect.body, |Sends(t)| + 1))
  {
    hide Exchange;
    assert (t + [effect])[..|t|] == t;
    assert Sends(t) + [] == Sends(t);
  }

  lemma SendsOne(t: Trace, effect: Effect)
    ensures Sends(t + [effect]) == Sends(t) + (if effect.Send? then [Sent(effect.url, effect.body)] else [])
  {
    assert (t + [effect])[..|t|] == t;
    assert Sends(t) + [] == Sends(t);
  }

  /** A request as its handler gets it. */
  function Received(scene: Scene, path: string, body: Body, k: nat): (Request, Jws) {
    (Request(scene.base, path, Raw(scene.wire, scene.base + path, body, k)),
     Jws(Header(scene.wire, scene.base + path, body, k), Fields(scene.wire, body)))
  }

  /** A request whose body suits its route reaches the route's handler. */
  lemma Delivered(scene: Scene, t: Trace, path: string, body: Body)
    requires FaithfulWire(scene.wire) && ModeOf(RouteOf(path)) == Some(BodyMode(body))
    ensures var sent, k := t + [Send(scene.base + path, body)], |Sends(t)| + 1;
            var (req, jws) := Received(scene, path, body, k);
            var (after, outcome) := Handle(AutoApprove, ServerAfter(scene, t), req, jws, scene.tokens(k));
            && ServerAfter(scene, sent) == after
            && ResponderWorld(scene)(sent) ==
               if outcome.Answer? then AnswerTo(body, outcome.response, scene.root) else Raised
  {
    hide Header, Fields, ParseJws, Raw, Handle, RouteOf, AnswerTo, FaithfulWire, ResponderWorld;
    var url := scene.base + path;
    ParsedBack(scene.wire, url, body, |Sends(t)| + 1);
    Called(scene, t, Send(url, body));
    assert url[|scene.base|..] == path;
  }

  // Which handler that is, one lemma a route.

  lemma HandledAccount(s: State, req: Request, jws: Jws, tokens: nat -> string)
    requires RouteOf(req.path) == NewAccountRoute
    ensures Handle(AutoApprove, s, req, jws, tokens) ==
            (NewAccount(s, req.base, jws).0, Outcome.Answer(NewAccount(s, req.base, jws).1))
  {
    hide RouteOf, NewAccount, NewOrder, FetchAuthz, RespondChallenge, Finalize, FetchOrder, FetchCertificate;
  }

  lemma HandledOrder(s: State, req: Request, jws: Jws, tokens: nat -> string)
    requires RouteOf(req.path) == NewOrderRoute
    ensures Handle(AutoApprove, s, req, jws, tokens) ==
            (NewOrder(s, req.base, jws.payload, tokens).0, Outcome.Answer(NewOrder(s, req.base, jws.payload, tokens).1))
  {
    hide RouteOf, NewAccount, NewOrder, FetchAuthz, RespondChallenge, Finalize, FetchOrder, FetchCertificate;
  }

  lemma HandledAuthz(s: State, req: Request, jws: Jws, tokens: nat -> string)
    requires RouteOf(req.path) == AuthzRoute
    ensures Handle(AutoApprove, s, req, jws, tokens) == (s, Outcome.Answer(FetchAuthz(s, req.base + req.path)))
  {
    hide RouteOf, NewAccount, NewOrder, FetchAuthz, RespondChallenge, Finalize, FetchOrder, FetchCertificate;
  }

  lemma HandledReady(s: State, req: Request, jws: Jws, tokens: nat -> string)
    requires RouteOf(req.path) == ChallengeRoute
    ensures Handle(AutoApprove, s, req, jws, tokens) == RespondChallenge(AutoApprove, s, req.base + req.path)
  {
    hide RouteOf, NewAccount, NewOrder, FetchAuthz, RespondChallenge, Finalize, FetchOrder, FetchCertificate;
  }

  lemma HandledCsr(s: State, req: Request, jws: Jws, tokens: nat -> string)
    requires RouteOf(req.path) == FinalizeRoute
    ensures Handle(AutoApprove, s, req, jws, tokens) ==
            (Finalize(s, req.base, req.path, jws.payload).0,
             Outcome.Answer(Finalize(s, req.base, req.path, jws.payload).1))
  {
    hide RouteOf, NewAccount, NewOrder, FetchAuthz, RespondChallenge, Finalize, FetchOrder, FetchCertificate;
  }

  lemma HandledPoll(s: State, req: Request, jws: Jws, tokens: nat -> string)
    requires RouteOf(req.path) == OrderRoute
    ensures Handle(AutoApprove, s, req, jws, tokens) ==
            (FetchOrder(s, req.base + req.path).0, Outcome.Answer(FetchOrder(s, req.base + req.path).1))
  {
    hide RouteOf, NewAccount, NewOrder, FetchAuthz, RespondChallenge, Finalize, FetchOrder, FetchCertificate;
  }

  lemma HandledDownload(s: State, req: Request, jws: Jws, tokens: nat -> string)
    requires RouteOf(req.path) == CertRoute
    ensures Handle(AutoApprove, s, req, jws, tokens) == (s, Outcome.Answer(FetchCertificate(s, req.base + req.path)))
  {
    hide RouteOf, NewAccount, NewOrder, FetchAuthz, RespondChallenge, Finalize, FetchOrder, FetchCertificate;
  }

  // One lemma a route: the request's effect on the responder, and the answer.

  lemma SentAccount(scene: Scene, t: Trace, path: string)
    requires FaithfulWire(scene.wire) && RouteOf(path) == NewAccountRoute
    ensures var s, sent, k := ServerAfter(scene, t), t + [Send(scene.base + path, AccountBody)], |Sends(t)| + 1;
            var result := NewAccount(s, scene.base, Received(scene, path, AccountBody, k).1);
            && ServerAfter(scene, sent) == result.0
            && ResponderWorld(scene)(sent) == AnswerTo(AccountBody, result.1, scene.root)
  {
    hide Raw, Header, Fields, ResponderWorld, RouteOf, ServerAfter, Handle, FaithfulWire, Sends, NewAccount, AnswerTo;
    Delivered(scene, t, path, AccountBody);
    var (req, jws) := Received(scene, path, AccountBody, |Sends(t)| + 1);
    HandledAccount(ServerAfter(scene, t), req, jws, scene.tokens(|Sends(t)| + 1));
  }

  lemma SentOrder(scene: Scene, t: Trace, path: string, ids: seq<Identifier>)
    requires FaithfulWire(scene.wire) && RouteOf(path) == NewOrderRoute
    ensures var s, body, k := ServerAfter(scene, t), OrderBody(ids), |Sends(t)| + 1;
            var sent := t + [Send(scene.base + path, body)];
            var result := NewOrder(s, scene.base, Fields(scene.wire, body), scene.tokens(k));
            && ServerAfter(scene, sent) == result.0
            && ResponderWorld(scene)(sent) == AnswerTo(body, result.1, scene.root)
  {
    hide Raw, Header, Fields, ResponderWorld, RouteOf, ServerAfter, Handle, FaithfulWire, NewOrder, AnswerTo;
    Delivered(scene, t, path, OrderBody(ids));
    var (req, jws) := Received(scene, path, OrderBody(ids), |Sends(t)| + 1);
    HandledOrder(ServerAfter(scene, t), req, jws, scene.tokens(|Sends(t)| + 1));
  }

  lemma SentAuthz(scene: Scene, t: Trace, path: string)
    requires FaithfulWire(scene.wire) && RouteOf(path) == AuthzRoute
    ensures var s, sent := ServerAfter(scene, t), t + [Send(scene.base + path, EmptyBody)];
            && ServerAfter(scene, sent) == s
            && ResponderWorld(scene)(sent) == AnswerTo(EmptyBody, FetchAuthz(s, scene.base + path), scene.root)
  {
    hide Raw, Header, Fields, ResponderWorld, RouteOf, ServerAfter, Handle, FaithfulWire, FetchAuthz, AnswerTo;
    Delivered(scene, t, path, EmptyBody);
    var (req, jws) := Received(scene, path, EmptyBody, |Sends(t)| + 1);
    HandledAuthz(ServerAfter(scene, t), req, jws, scene.tokens(|Sends(t)| + 1));
  }

  lemma SentReady(scene: Scene, t: Trace, path: string)
    requires FaithfulWire(scene.wire) && RouteOf(path) == ChallengeRoute
    ensures var s, sent := ServerAfter(scene, t), t + [Send(scene.base + path, ReadyBody)];
            var (after, outcome) := RespondChallenge(AutoApprove, s, scene.base + path);
            && ServerAfter(scene, sent) == after
            && (outcome.Answer? ==> ResponderWorld(scene)(sent) == AnswerTo(ReadyBody, outcome.response, scene.root))
  {
    hide Raw, Header, Fields, ResponderWorld, RouteOf, ServerAfter, Handle, FaithfulWire, RespondChallenge, AnswerTo;
    Delivered(scene, t, path, ReadyBody);
    var (req, jws) := Received(scene, path, ReadyBody, |Sends(t)| + 1);
    HandledReady(ServerAfter(scene, t), req, jws, scene.tokens(|Sends(t)| + 1));
  }

  lemma SentPoll(scene: Scene, t: Trace, path: string)
    requires FaithfulWire(scene.wire) && RouteOf(path) == OrderRoute
    ensures var s, sent := ServerAfter(scene, t), t + [Send(scene.base + path, EmptyBody)];
            var result := FetchOrder(s, scene.base + path);
            && ServerAfter(scene, sent) == result.0
            && ResponderWorld(scene)(sent) == AnswerTo(EmptyBody, result.1, scene.root)
  {
    hide Raw, Header, Fields, ResponderWorld, RouteOf, ServerAfter, Handle, FaithfulWire, FetchOrder, AnswerTo;
    Delivered(scene, t, path, EmptyBody);
    var (req, jws) := Received(scene, path, EmptyBody, |Sends(t)| + 1);
    HandledPoll(ServerAfter(scene, t), req, jws, scene.tokens(|Sends(t)| + 1));
  }

  lemma SentCsr(scene: Scene, t: Trace, path: string, csr: Csr)
    requires FaithfulWire(scene.wire) && RouteOf(path) == FinalizeRoute
    ensures var s, body := ServerAfter(scene, t), CsrBody(csr);
            var sent := t + [Send(scene.base + path, body)];
            var result := Finalize(s, scene.base, path, Fields(scene.wire, body));
            && ServerAfter(scene, sent) == result.0
            && ResponderWorld(scene)(sent) == AnswerTo(body, result.1, scene.root)
  {
    hide Raw, Header, Fields, ResponderWorld, RouteOf, ServerAfter, Handle, FaithfulWire, Finalize, AnswerTo;
    Delivered(scene, t, path, CsrBody(csr));
    var (req, jws) := Received(scene, path, CsrBody(csr), |Sends(t)| + 1);
    HandledCsr(ServerAfter(scene, t), req, jws, scene.tokens(|Sends(t)| + 1));
  }

  lemma SentDownload(scene: Scene, t: Trace, path: string)
    requires FaithfulWire(scene.wire) && RouteOf(path) == CertRoute
    ensures var s, sent := ServerAfter(scene, t), t + [Send(scene.base + path, EmptyBody)];
            && ServerAfter(scene, sent) == s
            && ResponderWorld(scene)(sent) == AnswerTo(EmptyBody, FetchCertificate(s, scene.base + path), scene.root)
  {
    hide Raw, Header, Fields, ResponderWorld, RouteOf, ServerAfter, Handle, FaithfulWire, FetchCertificate, AnswerTo;
    Delivered(scene, t, path, EmptyBody);
    var (req, jws) := Received(scene, path, EmptyBody, |Sends(t)| + 1);
    HandledDownload(ServerAfter(scene, t), req, jws, scene.tokens(|Sends(t)| + 1));
  }

  // ---------------------------------------------------------------- account and order

  lemma FixedRoutes()
    ensures RouteOf("/new-account") == NewAccountRoute && RouteOf("/new-order") == NewOrderRoute
  {
    assert |"/new-account"| == 12 && |"/new-nonce"| == 10 && |"/new-order"| == 10 && |"/directory"| == 10;
    assert "/new-order"[5] == 'o' && "/new-nonce"[5] == 'n' && "/directory"[1] == 'd' && "/new-order"[1] == 'n';
  }

  lemma HeaderKey(wire: Wire, url: string, k: nat)
    ensures Get(Header(wire, url, AccountBody, k), "jwk") == Obj(wire.jwk)
  {
  }

  lemma AccountFields(wire: Wire)
    ensures !Truthy(Get(Fields(wire, AccountBody), "onlyReturnExisting"))
  {
    assert |"onlyReturnExisting"| == 18 && |"termsOfServiceAgreed"| == 20 && |"contact"| == 7;
  }

  lemma AccountGranted(s: State, scene: Scene, url: string, k: nat)
    requires FaithfulWire(scene.wire)
    ensures var jws := Jws(Header(scene.wire, url, AccountBody, k), Fields(scene.wire, AccountBody));
            NewAccount(s, scene.base, jws).1.AccountDoc?
  {
    hide Header, Fields, Truthy;
    HeaderKey(scene.wire, url, k);
    AccountFields(scene.wire);
  }

  /** The counters of orders, authorizations and certificates have not moved. */
  predicate SameNumbers(s: State, t: State) {
    t.orderCounter == s.orderCounter && t.authzCounter == s.authzCounter && t.certCounter == s.certCounter
  }

  lemma AccountKeepsNumbers(s: State, base: string, jws: Jws)
    ensures SameNumbers(s, NewAccount(s, base, jws).0)
  {
  }

  lemma AccountOpened(scene: Scene, t: Trace, url: string)
    requires FaithfulWire(scene.wire) && Inv(ServerAfter(scene, t)) && url == scene.base + "/new-account"
    ensures var sent := t + [Send(url, AccountBody)];
            && ResponderWorld(scene)(sent).AccountAt?
            && Inv(ServerAfter(scene, sent))
            && SameNumbers(ServerAfter(scene, t), ServerAfter(scene, sent))
  {
    hide Inv, Header, Fields, Raw, ResponderWorld, RouteOf, ServerAfter, FaithfulWire, Sends, NewAccount;
    var s, k := ServerAfter(scene, t), |Sends(t)| + 1;
    FixedRoutes();
    SentAccount(scene, t, "/new-account");
    AccountGranted(s, scene, url, k);
    AccountKeepsNumbers(s, scene.base, Received(scene, "/new-account", AccountBody, k).1);
    NewAccountSafe(s, scene.base, Received(scene, "/new-account", AccountBody, k).1);
  }

  lemma OrderFields(wire: Wire, ids: seq<Identifier>)
    ensures Get(Fields(wire, OrderBody(ids)), "identifiers") == Arr(WireItems(ids))
  {
  }

  lemma PlacedResponse(s: State, base: string, ids: seq<Identifier>, tokens: nat -> string)
    ensures PlaceOrder(s, base, ids, tokens).1.OrderDoc? && PlaceOrder(s, base, ids, tokens).1.status == 201
  {
  }

  lemma OrderPlaced(scene: Scene, t: Trace, url: string, values: seq<Value>)
    requires FaithfulWire(scene.wire) && url == scene.base + "/new-order" && values != [] && ValidValues(values)
    ensures var ids := IdentifiersOfValues(values);
            var sent := t + [Send(url, OrderBody(ids))];
            var (after, response) := PlaceOrder(ServerAfter(scene, t), scene.base, ids, scene.tokens(|Sends(t)| + 1));
            && ServerAfter(scene, sent) == after
            && ResponderWorld(scene)(sent) == OrderAt(response.location, response.order)
  {
    hide Fields, ResponderWorld, RouteOf, ServerAfter, NormalizeIdentifiers, IdentifiersOfValues, PlaceOrder,
      ValidValues, WireItems, FaithfulWire, Sends;
    var ids := IdentifiersOfValues(values);
    FixedRoutes();
    SentOrder(scene, t, "/new-order", ids);
    OrderFields(scene.wire, ids);
    WireRoundTrip(values);
    PlacedResponse(ServerAfter(scene, t), scene.base, ids, scene.tokens(|Sends(t)| + 1));
  }

  // ---------------------------------------------------------------- the placed order

  /** The i-th of the authorizations numbered from `after`. */
  function Nth(base: string, after: nat, i: nat): string {
    AuthzUrl(base, after + i + 1)
  }

  function AuthzUrls(base: string, after: nat, count: nat): seq<string> {
    seq(count, i requires 0 <= i < count => Nth(base, after, i))
  }

  predicate Known(s: State, base: string, after: nat, count: nat) {
    forall i: nat :: i < count ==> Nth(base, after, i) in s.authzs
  }

  /** The authorization numbered `m` is the one minted for this identifier, up to status. */
  predicate AuthzAt(s: State, base: string, m: nat, id: Identifier) {
    && AuthzUrl(base, m) in s.authzs
    && var a := s.authzs[AuthzUrl(base, m)];
       a == MintAuthz(base, m, id, a.token).(status := a.status, challengeStatus := a.challengeStatus)
  }

  predicate AuthzsAt(s: State, base: string, after: nat, ids: seq<Identifier>) {
    forall i :: 0 <= i < |ids| ==> AuthzAt(s, base, after + i + 1, ids[i])
  }

  /** Order `n` is open with these identifiers, its authorizations numbered from `after`. */
  predicate OrderOpen(s: State, base: string, n: nat, after: nat, ids: seq<Identifier>) {
    && Inv(s)
    && OrderUrl(base, n) in s.orders
    && s.orders[OrderUrl(base, n)] ==
       Order(OrderUrl(base, n), ids, OrderPending, AuthzUrls(base, after, |ids|), FinalizeUrl(base, n), None)
    && AuthzsAt(s, base, after, ids)
  }

  predicate ValidUpTo(s: State, base: string, after: nat, k: nat) {
    forall i: nat :: i < k ==> Nth(base, after, i) in s.authzs && s.authzs[Nth(base, after, i)].status == AuthzValid
  }

  lemma PlacedIsOpen(s: State, base: string, ids: seq<Identifier>, tokens: nat -> string)
    requires Inv(s) && ids != [] && ValidIdentifiers(ids)
    ensures var (t, response) := PlaceOrder(s, base, ids, tokens);
            && OrderOpen(t, base, s.orderCounter + 1, s.authzCounter, ids)
            && response.order.authorizations == AuthzUrls(base, s.authzCounter, |ids|)
            && response.location == OrderUrl(base, s.orderCounter + 1) && t.certCounter == s.certCounter
  {
    hide Inv, OrderUrl, FinalizeUrl, AuthzUrl, ChallengeUrl, DnsChallengeUrl, ValidIdentifiers, StoreAuthzs, AuthzsAt;
    PlaceOrderSafe(s, base, ids, tokens);
    PlacedAuthzsAt(s, base, ids, tokens);
    MintedUrls(base, s.authzCounter, ids, tokens);
  }

  lemma MintedUrls(base: string, after: nat, ids: seq<Identifier>, tokens: nat -> string)
    ensures UrlsOf(MintAuthzs(base, after, ids, tokens)) == AuthzUrls(base, after, |ids|)
  {
    hide AuthzUrl, ChallengeUrl, DnsChallengeUrl;
    var minted := MintAuthzs(base, after, ids, tokens);
    forall i | 0 <= i < |ids| ensures minted[i].url == Nth(base, after, i) {
      assert minted[i] == MintAuthz(base, after + i + 1, ids[i], tokens(i));
    }
  }

  lemma PlacedAuthzsAt(s: State, base: string, ids: seq<Identifier>, tokens: nat -> string)
    requires Inv(s)
    ensures AuthzsAt(PlaceOrder(s, base, ids, tokens).0, base, s.authzCounter, ids)
  {
    hide AuthzsConsistent, OrdersKeyed, OrdersFit, CertificatesNumbered, CertificatesOwned, CertificatesUnshared,
      Advertised, StoreAuthzs, OrderUrl, FinalizeUrl, AuthzUrl, ChallengeUrl, DnsChallengeUrl, Covered;
    PlacedAuthzs(s, base, ids, tokens);
    var minted, t := MintAuthzs(base, s.authzCounter, ids, tokens), PlaceOrder(s, base, ids, tokens).0;
    forall i | 0 <= i < |ids| ensures AuthzAt(t, base, s.authzCounter + i + 1, ids[i]) {
      assert minted[i] == MintAuthz(base, s.authzCounter + i + 1, ids[i], tokens(i));
      assert t.authzs[minted[i].url] == minted[i];
    }
  }

  // ---------------------------------------------------------------- fetching authorizations

  lemma AuthzPath(base: string, m: nat)
    ensures AuthzUrl(base, m) == base + ("/authz/" + Decimal(m)) && RouteOf("/authz/" + Decimal(m)) == AuthzRoute
  {
    hide RouteOf;
    NumberedPaths(m);
  }

  function ViewAt(s: State, url: string): Authorization
    requires url in s.authzs
  {
    var a := s.authzs[url];
    ClientView(AuthzView(a.status, a.kind, a.identifierValue, a.wildcard, ChallengesOf(a)))
  }

  lemma AuthzFetched(scene: Scene, t: Trace, m: nat)
    requires FaithfulWire(scene.wire) && AuthzUrl(scene.base, m) in ServerAfter(scene, t).authzs
    ensures var url := AuthzUrl(scene.base, m);
            var sent := t + [Send(url, EmptyBody)];
            && ServerAfter(scene, sent) == ServerAfter(scene, t)
            && ResponderWorld(scene)(sent) == AuthzIs(ViewAt(ServerAfter(scene, t), url))
  {
    hide ResponderWorld, RouteOf, ServerAfter, ChallengesOf, ClientView, AuthzUrl, FaithfulWire, Sends, Decimal;
    AuthzPath(scene.base, m);
    SentAuthz(scene, t, "/authz/" + Decimal(m));
  }

  function AllViews(s: State, base: string, after: nat, count: nat): seq<Fetched>
    requires Known(s, base, after, count)
  {
    seq(count, i requires 0 <= i < count => Fetched(Nth(base, after, i), ViewAt(s, Nth(base, after, i))))
  }

  /** The requests that read these resources. */
  function Reads(urls: seq<string>): seq<Sent> {
    seq(|urls|, i requires 0 <= i < |urls| => Sent(urls[i], EmptyBody))
  }

  lemma {:induction false} AllFetched(scene: Scene, t: Trace, after: nat, count: nat, k: nat)
    requires FaithfulWire(scene.wire) && k <= count
    requires Known(ServerAfter(scene, t), scene.base, after, count)
    ensures var s := ServerAfter(scene, t);
            var views := AllViews(s, scene.base, after, count);
            var (done, fetched) := FetchAll(ResponderWorld(scene), t, AuthzUrls(scene.base, after, count)[k..],
              views[..k]);
            && fetched == Some(views) && ServerAfter(scene, done) == s
            && Sends(done) == Sends(t) + Reads(AuthzUrls(scene.base, after, count))[k..]
    decreases count - k
  {
    hide ServerAfter, Sends, ResponderWorld, AuthzUrl, ViewAt, FaithfulWire, Known;
    var s := ServerAfter(scene, t);
    var urls, views := AuthzUrls(scene.base, after, count), AllViews(s, scene.base, after, count);
    if k < count {
      var sent := t + [Send(urls[k], EmptyBody)];
      KnownNth(s, scene.base, after, count, k);
      AuthzFetched(scene, t, after + k + 1);
      assert urls[k..][0] == urls[k] && urls[k..][1..] == urls[k + 1..];
      assert views[..k] + [views[k]] == views[..k + 1];
      SendsOne(t, Send(urls[k], EmptyBody));
      assert Reads(urls)[k..] == [Sent(urls[k], EmptyBody)] + Reads(urls)[k + 1..];
      AllFetched(scene, sent, after, count, k + 1);
    } else {
      assert urls[k..] == [] && views[..k] == views && Reads(urls)[k..] == [];
    }
  }

  lemma KnownNth(s: State, base: string, after: nat, count: nat, k: nat)
    requires Known(s, base, after, count) && k < count
    ensures AuthzUrl(base, after + k + 1) in s.authzs && Nth(base, after, k) == AuthzUrl(base, after + k + 1)
  {
    hide AuthzUrl;
    assert Nth(base, after, k) in s.authzs;
  }

  // ---------------------------------------------------------------- solving challenges

  /** The client reads the identifier back from the authorization minted for it. */
  lemma ClaimOfMinted(base: string, m: nat, value: Value, token: string, authz: Authorization)
    requires ValidValue(value)
    requires var a := MintAuthz(base, m, IdentifierOfValue(value), token);
             authz.kind == a.kind && authz.value == a.identifierValue && authz.wildcard == a.wildcard
    ensures Claim(authz) == Some(KeyOfValue(value))
  {
    hide ValidDns, ParseCanonicalAddress, AddressText, Lower;
    ValueWireRoundTrip(value);
    if value.Dns? { WildcardRoundTrip(value.name); }
  }

  /** The URL of the challenge of this type. */
  function SolvedUrl(base: string, m: nat, kind: ChallengeType): string {
    if kind == Dns01 then DnsChallengeUrl(base, m) else ChallengeUrl(base, m)
  }

  /** A compatible challenge type the responder knows is offered. */
  lemma OfferedByMinted(base: string, m: nat, value: Value, a: Authz, kind: ChallengeType)
    requires a ==
             MintAuthz(base, m, IdentifierOfValue(value), a.token)
             .(status := a.status, challengeStatus := a.challengeStatus)
    requires Compatible(value, kind) && !kind.OtherType?
    ensures FindOffer(OffersOf(ChallengesOf(a)), kind) == Some(Offer(kind, SolvedUrl(base, m, kind), a.token))
  {
    hide AddressText, ChallengeUrl, DnsChallengeUrl, AuthzUrl;
    var offers := OffersOf(ChallengesOf(a));
    if a.wildcard {
      assert offers == [Offer(Dns01, a.dnsChallengeUrl, a.token)];
    } else if a.kind == DnsKind {
      assert offers == [Offer(Http01, a.challengeUrl, a.token), Offer(Dns01, a.dnsChallengeUrl, a.token)];
      assert offers[1..][0] == offers[1];
    } else {
      assert offers == [Offer(Http01, a.challengeUrl, a.token)];
    }
  }

  lemma ChosenAt(s: State, base: string, m: nat, value: Value, routes: RouteMap)
    requires ValidValue(value) && AuthzAt(s, base, m, IdentifierOfValue(value))
    requires KeyOfValue(value) in routes && Compatible(value, routes[KeyOfValue(value)].kind)
    requires !routes[KeyOfValue(value)].kind.OtherType?
    ensures var chosen := Choose(ViewAt(s, AuthzUrl(base, m)), routes);
            chosen.Some? && chosen.value.1 == SolvedUrl(base, m, routes[KeyOfValue(value)].kind)
  {
    hide ValidValue, Compatible, KeyOfValue, Claim, FindOffer, SolvedUrl, ChallengesOf, OffersOf, AuthzUrl;
    var a := s.authzs[AuthzUrl(base, m)];
    MintedLike(base, m, IdentifierOfValue(value), a);
    ClaimOfMinted(base, m, value, a.token, ViewAt(s, AuthzUrl(base, m)));
    OfferedByMinted(base, m, value, a, routes[KeyOfValue(value)].kind);
  }

  lemma MintedLike(base: string, m: nat, id: Identifier, a: Authz)
    requires a == MintAuthz(base, m, id, a.token).(status := a.status, challengeStatus := a.challengeStatus)
    ensures var minted := MintAuthz(base, m, id, a.token);
            a.kind == minted.kind && a.identifierValue == minted.identifierValue && a.wildcard == minted.wildcard
  {
  }

  /** The search finds the authorization whose challenge URL was advertised. */
  lemma FoundAt(s: State, base: string, m: nat, value: Value, kind: ChallengeType)
    requires AuthzsConsistent(s.authzs, s.authzKeys, s.authzCounter) && AuthzAt(s, base, m, IdentifierOfValue(value))
    requires Compatible(value, kind) && !kind.OtherType?
    ensures FindChallenge(s.authzs, s.authzKeys, SolvedUrl(base, m, kind)) == Some(AuthzUrl(base, m))
  {
    hide FindChallenge, ChallengeUrl, DnsChallengeUrl, AuthzUrl, AddressText, Numbered;
    var url, key := SolvedUrl(base, m, kind), AuthzUrl(base, m);
    assert HttpHit(s.authzs[key], url) || DnsHit(s.authzs[key], url);
    var i :| 0 <= i < |s.authzKeys| && s.authzKeys[i] == key;
    FindChallengeIs(s.authzs, s.authzKeys, url);
    var found := FindChallenge(s.authzs, s.authzKeys, url);
    var j :| 0 <= j < |s.authzKeys| && s.authzKeys[j] == found.value
             && (HttpHit(s.authzs[s.authzKeys[j]], url) || DnsHit(s.authzs[s.authzKeys[j]], url));
    ChallengeHitUnique(s, i, j, url);
  }

  lemma SolvedPath(base: string, m: nat, kind: ChallengeType)
    ensures var path := "/chall/" + Decimal(m) + if kind == Dns01 then "-dns" else "";
            SolvedUrl(base, m, kind) == base + path && RouteOf(path) == ChallengeRoute
  {
    hide RouteOf;
    NumberedPaths(m);
    assert "/chall/" + Decimal(m) + "" == "/chall/" + Decimal(m);
  }

  lemma Approved(s: State, url: string, key: string)
    requires FindChallenge(s.authzs, s.authzKeys, url) == Some(key) && key in s.authzs
    ensures var (after, outcome) := RespondChallenge(AutoApprove, s, url);
            after == SetStatus(s, key, AuthzValid, ChallengeValid) && outcome.Answer? && outcome.response.ChallengeDoc?
  {
    hide FindChallenge, HttpHit;
  }

  lemma ChallengeAnswered(scene: Scene, t: Trace, m: nat, value: Value, kind: ChallengeType)
    requires FaithfulWire(scene.wire) && AuthzAt(ServerAfter(scene, t), scene.base, m, IdentifierOfValue(value))
    requires var s := ServerAfter(scene, t); AuthzsConsistent(s.authzs, s.authzKeys, s.authzCounter)
    requires Compatible(value, kind) && !kind.OtherType?
    ensures var s, key := ServerAfter(scene, t), AuthzUrl(scene.base, m);
            var sent := t + [Send(SolvedUrl(scene.base, m, kind), ReadyBody)];
            && ResponderWorld(scene)(sent) == Answer.Done
            && key in s.authzs && ServerAfter(scene, sent) == SetStatus(s, key, AuthzValid, ChallengeValid)
  {
    hide ResponderWorld, RouteOf, ServerAfter, FindChallenge, SolvedUrl, AuthzUrl, AuthzsConsistent, Compatible,
      SetStatus, FaithfulWire, MintAuthz, Sends, RespondChallenge, Decimal;
    SolvedPath(scene.base, m, kind);
    FoundAt(ServerAfter(scene, t), scene.base, m, value, kind);
    SentReady(scene, t, "/chall/" + Decimal(m) + if kind == Dns01 then "-dns" else "");
    Approved(ServerAfter(scene, t), SolvedUrl(scene.base, m, kind), AuthzUrl(scene.base, m));
  }

  lemma StatusSet(s: State, base: string, n: nat, after: nat, ids: seq<Identifier>, k: nat)
    requires OrderOpen(s, base, n, after, ids) && k < |ids| && ValidUpTo(s, base, after, k)
    ensures AuthzUrl(base, after + k + 1) in s.authzs
    ensures var t := SetStatus(s, AuthzUrl(base, after + k + 1), AuthzValid, ChallengeValid);
            OrderOpen(t, base, n, after, ids) && ValidUpTo(t, base, after, k + 1)
  {
    hide Inv, OrderUrl, FinalizeUrl, AuthzUrl, MintAuthz, ValidUpTo, AuthzUrls;
    assert AuthzAt(s, base, after + k + 1, ids[k]);
    SetStatusSafe(s, AuthzUrl(base, after + k + 1), AuthzValid, ChallengeValid);
    var t := SetStatus(s, AuthzUrl(base, after + k + 1), AuthzValid, ChallengeValid);
    forall i | 0 <= i < |ids| ensures AuthzAt(t, base, after + i + 1, ids[i]) {
      assert AuthzAt(s, base, after + i + 1, ids[i]);
      AuthzUrlInjective(base, after + i + 1, after + k + 1);
    }
    OneMoreValid(s, base, after, k);
  }

  lemma OneMoreValid(s: State, base: string, after: nat, k: nat)
    requires ValidUpTo(s, base, after, k) && AuthzUrl(base, after + k + 1) in s.authzs
    ensures ValidUpTo(SetStatus(s, AuthzUrl(base, after + k + 1), AuthzValid, ChallengeValid), base, after, k + 1)
  {
    hide AuthzUrl;
    var t := SetStatus(s, AuthzUrl(base, after + k + 1), AuthzValid, ChallengeValid);
    forall i: nat | i < k + 1
      ensures Nth(base, after, i) in t.authzs && t.authzs[Nth(base, after, i)].status == AuthzValid
    {
      if i < k { assert Nth(base, after, i) in s.authzs; }
    }
  }

  lemma AuthzUrlInjective(base: string, m: nat, n: nat)
    ensures AuthzUrl(base, m) == AuthzUrl(base, n) <==> m == n
  {
    hide AuthzUrl;
    if AuthzUrl(base, m) == AuthzUrl(base, n) { UrlsDistinct(AuthzKind, base, m, AuthzKind, base, n); }
  }

  /** The fetched views stand for the identifiers, whatever has happened since. */
  predicate ViewsOf(views: seq<Fetched>, base: string, after: nat, values: seq<Value>, routes: RouteMap) {
    && |views| == |values|
    && forall i :: 0 <= i < |values| ==>
         && views[i].url == Nth(base, after, i)
         && KeyOfValue(values[i]) in routes && Compatible(values[i], routes[KeyOfValue(values[i])].kind)
         && !routes[KeyOfValue(values[i])].kind.OtherType?
         && Choose(views[i].authz, routes).Some?
         && Choose(views[i].authz, routes).value.1 == SolvedUrl(base, after + i + 1, routes[KeyOfValue(values[i])].kind)
  }

  lemma FetchedViews(s: State, base: string, n: nat, after: nat, values: seq<Value>, routes: RouteMap)
    requires ValidValues(values) && OrderOpen(s, base, n, after, IdentifiersOfValues(values))
    requires AllCompatible(values, routes) && forall key :: key in routes ==> !routes[key].kind.OtherType?
    ensures Known(s, base, after, |values|)
    ensures ViewsOf(AllViews(s, base, after, |values|), base, after, values, routes)
  {
    hide Inv, OrderUrl, FinalizeUrl, AuthzUrl, MintAuthz, Choose, ValidValue, KeyOfValue, Compatible, SolvedUrl, ViewAt,
      IdentifierOfValue;
    var ids := IdentifiersOfValues(values);
    forall i | 0 <= i < |values|
      ensures Nth(base, after, i) in s.authzs
      ensures var chosen := Choose(ViewAt(s, Nth(base, after, i)), routes);
              chosen.Some? && chosen.value.1 == SolvedUrl(base, after + i + 1, routes[KeyOfValue(values[i])].kind)
    {
      assert AuthzAt(s, base, after + i + 1, ids[i]);
      ChosenAt(s, base, after + i + 1, values[i], routes);
    }
  }

  /** The requests that answer the challenges. */
  function Answers(base: string, after: nat, values: seq<Value>, routes: RouteMap): (sends: seq<Sent>)
    ensures |sends| == |values|
  {
    seq(|values|, i requires 0 <= i < |values| =>
      Sent(SolvedUrl(base, after + i + 1, KindFor(routes, values[i])), ReadyBody))
  }

  /** The challenge type an identifier is routed by. */
  function KindFor(routes: RouteMap, value: Value): ChallengeType {
    if KeyOfValue(value) in routes then routes[KeyOfValue(value)].kind else Dns01
  }

  /** These challenges are provisioned, and nothing was deprovisioned. */
  predicate OpenNow(world: World, t: Trace, open: seq<Prepared>) {
    Successes(world, t) == open && Cleaned(t) == []
  }

  lemma SendKeepsOpen(world: World, t: Trace, url: string, body: Body, open: seq<Prepared>)
    requires OpenNow(world, t, open)
    ensures OpenNow(world, t + [Send(url, body)], open)
  {
    hide Successes, Cleaned;
    OneMore(world, t, Send(url, body));
  }

  lemma {:induction false} SendsKeepOpen(world: World, t: Trace, after: Trace, open: seq<Prepared>)
    requires OpenNow(world, t, open) && OnlySends(t, after)
    ensures OpenNow(world, after, open)
    decreases |after|
  {
    hide OpenNow;
    if |after| > |t| {
      var front, last := after[..|after| - 1], after[|after| - 1];
      assert after == front + [Send(last.url, last.body)];
      SendsKeepOpen(world, t, front, open);
      SendKeepsOpen(world, front, last.url, last.body, open);
    } else {
      assert after == t;
    }
  }

  lemma ProvisionOpens(world: World, t: Trace, prepared: Prepared, open: seq<Prepared>)
    requires OpenNow(world, t, open) && !Fails(world(t + [Provision(prepared)]))
    ensures OpenNow(world, t + [Provision(prepared)], open + [prepared])
  {
    hide Successes, Cleaned;
    OneMore(world, t, Provision(prepared));
  }

  /** From here the loop solves all challenges of the order, from the k-th on. */
  predicate SolvesAll(scene: Scene, t: Trace, n: nat, after: nat, values: seq<Value>, views: seq<Fetched>,
                      routes: RouteMap, k: nat, open: seq<Prepared>) {
    && k <= |values| && k <= |views|
    && var (done, provisioned, solved) := Solve(ResponderWorld(scene), t, views[k..], routes, open);
      && solved && Sends(done) == Sends(t) + Answers(scene.base, after, values, routes)[k..]
      && |provisioned| == |open| + |values| - k && OpenNow(ResponderWorld(scene), done, provisioned)
      && OrderOpen(ServerAfter(scene, done), scene.base, n, after, IdentifiersOfValues(values))
      && ValidUpTo(ServerAfter(scene, done), scene.base, after, |values|)
      && ServerAfter(scene, done).certCounter == ServerAfter(scene, t).certCounter
  }

  lemma {:induction false} AllSolved(scene: Scene, t: Trace, n: nat, after: nat, values: seq<Value>,
                                     views: seq<Fetched>, routes: RouteMap, k: nat, open: seq<Prepared>)
    requires FaithfulWire(scene.wire) && k <= |values|
    requires OrderOpen(ServerAfter(scene, t), scene.base, n, after, IdentifiersOfValues(values))
    requires ValidUpTo(ServerAfter(scene, t), scene.base, after, k)
    requires ViewsOf(views, scene.base, after, values, routes)
    requires OpenNow(ResponderWorld(scene), t, open)
    ensures SolvesAll(scene, t, n, after, values, views, routes, k, open)
    decreases |values| - k
  {
    hide ServerAfter, Sends, ResponderWorld, FaithfulWire, OrderOpen, ValidUpTo, ViewsOf, Choose, OpenNow, Answers,
      IdentifiersOfValues;
    ViewsLength(views, scene.base, after, values, routes);
    var answers := Answers(scene.base, after, values, routes);
    if k < |values| {
      assert views[k..][0] == views[k] && views[k..][1..] == views[k + 1..];
      OneSolved(scene, t, n, after, values, views, routes, k, open);
      var (prepared, url) := Choose(views[k].authz, routes).value;
      var sent := t + [Provision(prepared)] + [Send(url, ReadyBody)];
      assert answers[k..] == [answers[k]] + answers[k + 1..];
      AllSolved(scene, sent, n, after, values, views, routes, k + 1, open + [prepared]);
    } else {
      assert answers[k..] == [];
    }
  }

  lemma ViewsLength(views: seq<Fetched>, base: string, after: nat, values: seq<Value>, routes: RouteMap)
    requires ViewsOf(views, base, after, values, routes)
    ensures |views| == |values|
  {
  }

  lemma ViewAtK(views: seq<Fetched>, base: string, after: nat, values: seq<Value>, routes: RouteMap, k: nat)
    requires ViewsOf(views, base, after, values, routes) && k < |values|
    ensures |views| == |values| && Choose(views[k].authz, routes).Some? && KeyOfValue(values[k]) in routes
    ensures var kind := routes[KeyOfValue(values[k])].kind;
            && Compatible(values[k], kind) && !kind.OtherType?
            && Choose(views[k].authz, routes).value.1 == SolvedUrl(base, after + k + 1, kind)
  {
    hide Choose, KeyOfValue, Compatible, SolvedUrl, AuthzUrl;
  }

  lemma OpenAuthz(s: State, base: string, n: nat, after: nat, values: seq<Value>, k: nat)
    requires OrderOpen(s, base, n, after, IdentifiersOfValues(values)) && k < |values|
    ensures AuthzsConsistent(s.authzs, s.authzKeys, s.authzCounter)
    ensures AuthzAt(s, base, after + k + 1, IdentifierOfValue(values[k]))
  {
    hide Inv, AuthzAt, OrderUrl, FinalizeUrl, AuthzUrls;
    ConsistentAuthzs(s);
    assert IdentifiersOfValues(values)[k] == IdentifierOfValue(values[k]);
  }

  /** The k-th challenge is provisioned and answered. */
  predicate SolvesOne(scene: Scene, t: Trace, n: nat, after: nat, values: seq<Value>, views: seq<Fetched>,
                      routes: RouteMap, k: nat, open: seq<Prepared>) {
    && k < |values| == |views| && Choose(views[k].authz, routes).Some?
    && var (prepared, url) := Choose(views[k].authz, routes).value;
      var called := t + [Provision(prepared)];
      var sent := called + [Send(url, ReadyBody)];
      && ResponderWorld(scene)(called) == Answer.Done && ResponderWorld(scene)(sent) == Answer.Done
      && Sends(sent) == Sends(t) + [Answers(scene.base, after, values, routes)[k]]
      && OpenNow(ResponderWorld(scene), sent, open + [prepared])
      && OrderOpen(ServerAfter(scene, sent), scene.base, n, after, IdentifiersOfValues(values))
      && ValidUpTo(ServerAfter(scene, sent), scene.base, after, k + 1)
      && ServerAfter(scene, sent).certCounter == ServerAfter(scene, t).certCounter
  }

  lemma OneSolved(scene: Scene, t: Trace, n: nat, after: nat, values: seq<Value>, views: seq<Fetched>, routes: RouteMap,
                  k: nat, open: seq<Prepared>)
    requires FaithfulWire(scene.wire) && k < |values|
    requires OrderOpen(ServerAfter(scene, t), scene.base, n, after, IdentifiersOfValues(values))
    requires ValidUpTo(ServerAfter(scene, t), scene.base, after, k)
    requires ViewsOf(views, scene.base, after, values, routes)
    requires OpenNow(ResponderWorld(scene), t, open)
    ensures SolvesOne(scene, t, n, after, values, views, routes, k, open)
  {
    hide ServerAfter, Sends, ResponderWorld, FaithfulWire, ValidUpTo, Choose, AuthzAt, SolvedUrl, Compatible,
      KeyOfValue, SetStatus, AuthzUrl, OrderOpen, ViewsOf, IdentifiersOfValues, AuthzsConsistent, Exchange, OpenNow;
    var s := ServerAfter(scene, t);
    ViewAtK(views, scene.base, after, values, routes, k);
    var (prepared, url) := Choose(views[k].authz, routes).value;
    var called := t + [Provision(prepared)];
    Called(scene, t, Provision(prepared));
    SendsOne(t, Provision(prepared));
    SendsOne(called, Send(url, ReadyBody));
    OpenAuthz(s, scene.base, n, after, values, k);
    ChallengeAnswered(scene, called, after + k + 1, values[k], routes[KeyOfValue(values[k])].kind);
    SameLength(values);
    StatusSet(s, scene.base, n, after, IdentifiersOfValues(values), k);
    StatusKeepsNumbers(s, AuthzUrl(scene.base, after + k + 1));
    ProvisionOpens(ResponderWorld(scene), t, prepared, open);
    SendKeepsOpen(ResponderWorld(scene), called, url, ReadyBody, open + [prepared]);
  }

  lemma StatusKeepsNumbers(s: State, key: string)
    requires key in s.authzs
    ensures SetStatus(s, key, AuthzValid, ChallengeValid).certCounter == s.certCounter
  {
  }

  lemma ConsistentAuthzs(s: State)
    requires Inv(s)
    ensures AuthzsConsistent(s.authzs, s.authzKeys, s.authzCounter)
  {
    hide AuthzsConsistent, OrdersKeyed, OrdersFit, CertificatesNumbered, CertificatesOwned, CertificatesUnshared,
      Advertised;
  }

  // ---------------------------------------------------------------- polling

  function UrlsIn(views: seq<Fetched>): seq<string> {
    seq(|views|, i requires 0 <= i < |views| => views[i].url)
  }

  lemma {:induction false} AllPolled(scene: Scene, patience: Patience, t: Trace, after: nat, views: seq<Fetched>,
                                     k: nat)
    requires FaithfulWire(scene.wire) && k <= |views| && ValidUpTo(ServerAfter(scene, t), scene.base, after, |views|)
    requires forall i :: 0 <= i < |views| ==> views[i].url == Nth(scene.base, after, i)
    ensures var (done, valid) := PollAuthzs(Env(ResponderWorld(scene), patience), t, views[k..]);
            && valid && ServerAfter(scene, done) == ServerAfter(scene, t)
            && Sends(done) == Sends(t) + Reads(UrlsIn(views))[k..]
    decreases |views| - k
  {
    hide ServerAfter, Sends, ResponderWorld, FaithfulWire, AuthzUrl, ChallengesOf, OffersOf;
    if k < |views| {
      assert views[k..][0] == views[k] && views[k..][1..] == views[k + 1..];
      AuthzFetched(scene, t, after + k + 1);
      SendsOne(t, Send(views[k].url, EmptyBody));
      assert Reads(UrlsIn(views))[k..] == [Sent(views[k].url, EmptyBody)] + Reads(UrlsIn(views))[k + 1..];
      AllPolled(scene, patience, t + [Send(views[k].url, EmptyBody)], after, views, k + 1);
    } else {
      assert views[k..] == [] && Reads(UrlsIn(views))[k..] == [];
    }
  }

  lemma OrderPath(base: string, n: nat)
    ensures OrderUrl(base, n) == base + ("/order/" + Decimal(n)) && RouteOf("/order/" + Decimal(n)) == OrderRoute
    ensures FinalizeUrl(base, n) == base + ("/finalize/" + Decimal(n))
            && RouteOf("/finalize/" + Decimal(n)) == FinalizeRoute
    ensures CertUrl(base, n) == base + ("/cert/" + Decimal(n)) && RouteOf("/cert/" + Decimal(n)) == CertRoute
    ensures base + "/order/" + LastSegment("/finalize/" + Decimal(n)) == OrderUrl(base, n)
  {
    hide RouteOf, LastSegment;
    NumberedPaths(n);
    UrlNumber("", "/finalize/", n);
    assert "" + "/finalize/" + Decimal(n) == "/finalize/" + Decimal(n);
  }

  /** The order as it is once it has been looked at with all authorizations valid. */
  function ReadyOrder(base: string, n: nat, after: nat, ids: seq<Identifier>): Order {
    Order(OrderUrl(base, n), ids, OrderReady, AuthzUrls(base, after, |ids|), FinalizeUrl(base, n), None)
  }

  predicate OrderAtReady(s: State, base: string, n: nat, after: nat, ids: seq<Identifier>) {
    OrderUrl(base, n) in s.orders && s.orders[OrderUrl(base, n)] == ReadyOrder(base, n, after, ids)
  }

  lemma BecomesReady(s: State, base: string, n: nat, after: nat, ids: seq<Identifier>)
    requires OrderOpen(s, base, n, after, ids) && ValidUpTo(s, base, after, |ids|)
    ensures var (t, response) := FetchOrder(s, OrderUrl(base, n));
            && OrderAtReady(t, base, n, after, ids) && t.certCounter == s.certCounter
            && response == OrderDoc(200, OrderUrl(base, n), ViewOf(ReadyOrder(base, n, after, ids)))
  {
    hide Inv, OrderUrl, FinalizeUrl, AuthzUrls, AuthzsAt, ValidUpTo, AllValid;
    AllAreValid(s, base, after, |ids|);
  }

  lemma OrderPolled(scene: Scene, t: Trace, n: nat, after: nat, ids: seq<Identifier>, patience: nat)
    requires FaithfulWire(scene.wire) && OrderOpen(ServerAfter(scene, t), scene.base, n, after, ids)
    requires ValidUpTo(ServerAfter(scene, t), scene.base, after, |ids|)
    ensures var (done, order) := PollOrder(ResponderWorld(scene), t, OrderUrl(scene.base, n), JudgeReady, patience);
            && done == t + [Send(OrderUrl(scene.base, n), EmptyBody)]
            && order == Some(ViewOf(ReadyOrder(scene.base, n, after, ids)))
            && OrderAtReady(ServerAfter(scene, done), scene.base, n, after, ids)
            && ServerAfter(scene, done).certCounter == ServerAfter(scene, t).certCounter
  {
    hide ResponderWorld, RouteOf, ServerAfter, Inv, OrderUrl, FinalizeUrl, FaithfulWire, Sends, AuthzUrls, FetchOrder,
      OrderOpen, ValidUpTo, OrderAtReady, Decimal;
    OrderPath(scene.base, n);
    SentPoll(scene, t, "/order/" + Decimal(n));
    BecomesReady(ServerAfter(scene, t), scene.base, n, after, ids);
  }

  lemma AllAreValid(s: State, base: string, after: nat, count: nat)
    requires ValidUpTo(s, base, after, count)
    ensures AllValid(s, AuthzUrls(base, after, count))
  {
    hide AuthzUrl, Nth;
  }

  // ---------------------------------------------------------------- finalizing and downloading

  lemma CsrFields(wire: Wire, csr: Csr)
    ensures Get(Fields(wire, CsrBody(csr)), "csr") == Str(Base64Url.Encode(wire.derOf(csr)))
  {
  }

  /** The order's valid view, its certificate numbered `c`. */
  function ValidView(base: string, n: nat, after: nat, ids: seq<Identifier>, c: nat): OrderView {
    OrderView(OrderValid, ids, AuthzUrls(base, after, |ids|), FinalizeUrl(base, n), Some(CertUrl(base, c)))
  }

  lemma AlreadyReady(s: State, base: string, n: nat, after: nat, ids: seq<Identifier>)
    requires OrderAtReady(s, base, n, after, ids)
    ensures OrderUrl(base, n) in s.orders && Promote(s, OrderUrl(base, n)) == s
    ensures s.orders[OrderUrl(base, n)].status == OrderReady && s.orders[OrderUrl(base, n)].identifiers == ids
  {
    hide OrderUrl, FinalizeUrl, AuthzUrls, AllValid;
  }

  lemma IssuedAtReady(s: State, base: string, n: nat, after: nat, ids: seq<Identifier>, certificate: Certificate)
    requires OrderAtReady(s, base, n, after, ids)
    ensures OrderUrl(base, n) in s.orders
    ensures var (t, response) := Acme.Issue(s, base, OrderUrl(base, n), certificate);
            && t.certificates == s.certificates[CertUrl(base, s.certCounter + 1) := certificate]
            && response == OrderDoc(200, OrderUrl(base, n), ValidView(base, n, after, ids, s.certCounter + 1))
  {
    hide OrderUrl, FinalizeUrl, AuthzUrls, CertUrl;
  }

  lemma FinalizedAtReady(s: State, base: string, n: nat, after: nat, values: seq<Value>, key: PublicKey, der: Bytes,
                         path: string, payload: map<string, Json>)
    requires values != [] && ValidValues(values) && OrderAtReady(s, base, n, after, IdentifiersOfValues(values))
    requires LoadCsr(der) == Some(CsrFor(key, values)) && der != [] && CommonNameFits(values)
    requires base + "/order/" + LastSegment(path) == OrderUrl(base, n)
    requires Get(payload, "csr") == Str(Base64Url.Encode(der))
    ensures var (t, response) := Finalize(s, base, path, payload);
            && t.certificates == s.certificates[CertUrl(base, s.certCounter + 1) := Certificate(NamesOf(values), key)]
            && response == OrderDoc(200, OrderUrl(base, n),
                                    ValidView(base, n, after, IdentifiersOfValues(values), s.certCounter + 1))
  {
    hide DecodeCsr, LastSegment, OrderUrl, FinalizeUrl, AuthzUrls, CertUrl, IdentifiersOfValues, CsrFor, ValidValues,
      SignCsr, Acme.Issue, NamesOf, ReadyOrder, CommonNameFits;
    OwnOrderAcceptsClientCsr(key, values, der);
    SignedAsRequested(der, values, key);
    AlreadyReady(s, base, n, after, IdentifiersOfValues(values));
    IssuedAtReady(s, base, n, after, IdentifiersOfValues(values), Certificate(NamesOf(values), key));
  }

  lemma SignedAsRequested(der: Bytes, values: seq<Value>, key: PublicKey)
    requires values != [] && LoadCsr(der) == Some(CsrFor(key, values))
    ensures SignCsr(der, values) == Certificate(NamesOf(values), key)
  {
  }

  lemma Downloaded(scene: Scene, t: Trace, c: nat, certificate: Certificate)
    requires FaithfulWire(scene.wire)
    requires CertUrl(scene.base, c) in ServerAfter(scene, t).certificates
    requires ServerAfter(scene, t).certificates[CertUrl(scene.base, c)] == certificate
    ensures var sent := t + [Send(CertUrl(scene.base, c), EmptyBody)];
            && ResponderWorld(scene)(sent) == ChainIs(Some([certificate, scene.root]))
  {
    hide ResponderWorld, RouteOf, ServerAfter, CertUrl, FaithfulWire, Sends, Decimal;
    OrderPath(scene.base, c);
    SentDownload(scene, t, "/cert/" + Decimal(c));
  }

  lemma CsrWritten(wire: Wire, key: PublicKey, values: seq<Value>)
    requires FaithfulWire(wire) && values != []
    ensures var der := wire.derOf(CsrFor(key, values)); der != [] && LoadCsr(der) == Some(CsrFor(key, values))
  {
  }

  lemma FinalizeSent(scene: Scene, t: Trace, n: nat, after: nat, values: seq<Value>, key: PublicKey)
    requires FaithfulWire(scene.wire) && values != [] && ValidValues(values) && CommonNameFits(values)
    requires OrderAtReady(ServerAfter(scene, t), scene.base, n, after, IdentifiersOfValues(values))
    ensures var s, c := ServerAfter(scene, t), ServerAfter(scene, t).certCounter + 1;
            var sent := t + [Send(FinalizeUrl(scene.base, n), CsrBody(CsrFor(key, values)))];
            && ResponderWorld(scene)(sent) == OrderIs(ValidView(scene.base, n, after, IdentifiersOfValues(values), c))
            && CertUrl(scene.base, c) in ServerAfter(scene, sent).certificates
            && ServerAfter(scene, sent).certificates[CertUrl(scene.base, c)] == Certificate(NamesOf(values), key)
  {
    hide Fields, ResponderWorld, RouteOf, ServerAfter, Finalize, OrderAtReady, ValidView, IdentifiersOfValues,
      ValidValues, LastSegment, OrderUrl, FinalizeUrl, CertUrl, NamesOf, Sends, FaithfulWire, CsrFor, Decimal,
      CommonNameFits;
    var csr, path := CsrFor(key, values), "/finalize/" + Decimal(n);
    OrderPath(scene.base, n);
    CsrFields(scene.wire, csr);
    SentCsr(scene, t, path, csr);
    CsrWritten(scene.wire, key, values);
    FinalizedAtReady(ServerAfter(scene, t), scene.base, n, after, values, key, scene.wire.derOf(csr), path,
                     Fields(scene.wire, CsrBody(csr)));
  }

  /** The requests from the readiness check on, with certificate number `c`: the order is read,
      and if a CSR can be generated it is finalized and the certificate read. */
  function Closing(base: string, n: nat, c: nat, values: seq<Value>, key: PublicKey): seq<Sent>
    requires values != []
  {
    [Sent(OrderUrl(base, n), EmptyBody)]
    + if CommonNameFits(values)
      then [Sent(FinalizeUrl(base, n), CsrBody(CsrFor(key, values))), Sent(CertUrl(base, c), EmptyBody)] else []
  }

  /** The chain obtained, if a CSR can be generated. */
  function ChainFor(scene: Scene, values: seq<Value>, key: PublicKey): Option<Option<seq<Certificate>>> {
    if CommonNameFits(values) then Some(Some([Certificate(NamesOf(values), key), scene.root])) else None
  }

  lemma Obtained(scene: Scene, patience: Patience, t: Trace, n: nat, after: nat, values: seq<Value>, key: PublicKey)
    requires FaithfulWire(scene.wire) && values != [] && ValidValues(values)
    requires OrderOpen(ServerAfter(scene, t), scene.base, n, after, IdentifiersOfValues(values))
    requires ValidUpTo(ServerAfter(scene, t), scene.base, after, |values|)
    ensures var (done, chain) :=
              Obtain(Env(ResponderWorld(scene), patience), t, OrderUrl(scene.base, n), GeneratedCsr(key, values));
            && chain == ChainFor(scene, values, key)
            && Sends(done) == Sends(t) + Closing(scene.base, n, ServerAfter(scene, t).certCounter + 1, values, key)
  {
    hide ResponderWorld, ServerAfter, FaithfulWire, ValidValues, OrderOpen, ValidUpTo, IdentifiersOfValues, OrderUrl,
      FinalizeUrl, CertUrl, AuthzUrls, NamesOf, Sends, PollOrder, CsrFor, OrderAtReady, CommonNameFits;
    var ids := IdentifiersOfValues(values);
    var c := ServerAfter(scene, t).certCounter + 1;
    assert |ids| == |values| by { SameLength(values); }
    OrderPolled(scene, t, n, after, ids, patience(t, OrderUrl(scene.base, n), ReadyLoop));
    var poll := Send(OrderUrl(scene.base, n), EmptyBody);
    SendsOne(t, poll);
    var t1 := t + [poll];
    if CommonNameFits(values) {
      FinalizeSent(scene, t1, n, after, values, key);
      var finalize := Send(FinalizeUrl(scene.base, n), CsrBody(CsrFor(key, values)));
      SendsOne(t1, finalize);
      Downloaded(scene, t1 + [finalize], c, Certificate(NamesOf(values), key));
      SendsOne(t1 + [finalize], Send(CertUrl(scene.base, c), EmptyBody));
    }
  }

  lemma SameLength(values: seq<Value>)
    ensures |IdentifiersOfValues(values)| == |values|
  {
  }

  // ---------------------------------------------------------------- the whole run

  lemma LeafAccepted(values: seq<Value>, key: PublicKey, root: Certificate)
    requires values != [] && ValidValues(values)
    ensures var leaf := Certificate(NamesOf(values), key);
            AcceptLeaf(Some([leaf, root]), values, key) == Some(leaf)
  {
    hide ValidValues, KeysOfValues, SansReadable, SanValues;
    NamesReadBack(values);
  }

  lemma {:induction false} AllCleaned(scene: Scene, t: Trace, open: seq<Prepared>)
    ensures var (after, cleaned) := CleanUp(ResponderWorld(scene), t, open);
            cleaned && Sends(after) == Sends(t) && Cleaned(after) == Cleaned(t) + open
    decreases |open|
  {
    hide ServerAfter, ResponderWorld, Sends, Cleaned, Exchange;
    if open == [] {
      assert Cleaned(t) + open == Cleaned(t);
    } else {
      Called(scene, t, Deprovision(open[0]));
      SendsOne(t, Deprovision(open[0]));
      OneMore(ResponderWorld(scene), t, Deprovision(open[0]));
      assert open == [open[0]] + open[1..];
      assert Cleaned(t) + [open[0]] + open[1..] == Cleaned(t) + open;
      AllCleaned(scene, t + [Deprovision(open[0])], open[1..]);
    }
  }

  lemma Concluded(scene: Scene, t: Trace, setup: Setup, leaf: Certificate, values: seq<Value>)
    ensures Conclude(ResponderWorld(scene), t, setup, leaf, values).1 == Some(leaf)
    ensures Sends(Conclude(ResponderWorld(scene), t, setup, leaf, values).0) == Sends(t)
    ensures Cleaned(Conclude(ResponderWorld(scene), t, setup, leaf, values).0) == Cleaned(t)
  {
    hide ServerAfter, ResponderWorld, Sends, Cleaned, DnsTexts, Exchange;
    var t1 := Optionally(t, setup.hasStore, SaveCert(leaf, Texts(values)));
    DoneQuietly(scene, t, SaveCert(leaf, Texts(values)));
    var t2 := Optionally(t1, setup.hasLimiter, RecordIssuance(DnsTexts(values)));
    DoneQuietly(scene, t1, RecordIssuance(DnsTexts(values)));
    DoneQuietly(scene, t2, EmitIssued(Texts(values)));
  }

  lemma DoneQuietly(scene: Scene, t: Trace, effect: Effect)
    requires !effect.Send? && !effect.Deprovision?
    ensures var after := t + [effect];
            ResponderWorld(scene)(after) == Answer.Done && Sends(after) == Sends(t) && Cleaned(after) == Cleaned(t)
  {
    hide ServerAfter, ResponderWorld, Sends, Cleaned, Exchange;
    Called(scene, t, effect);
    OneMore(ResponderWorld(scene), t, effect);
    SendsOne(t, effect);
  }

  /** The requests from the first challenge on. */
  function Working(base: string, n: nat, after: nat, c: nat, values: seq<Value>, routes: RouteMap, key: PublicKey)
    : seq<Sent>
    requires values != []
  {
    Answers(base, after, values, routes) + (Reads(AuthzUrls(base, after, |values|)) + Closing(base, n, c, values, key))
  }

  lemma Attempted(scene: Scene, patience: Patience, t: Trace, n: nat, after: nat, values: seq<Value>,
                  routes: RouteMap, views: seq<Fetched>, key: PublicKey)
    requires FaithfulWire(scene.wire) && values != [] && ValidValues(values)
    requires OrderOpen(ServerAfter(scene, t), scene.base, n, after, IdentifiersOfValues(values))
    requires ViewsOf(views, scene.base, after, values, routes) && OpenNow(ResponderWorld(scene), t, [])
    ensures var (done, provisioned, chain) :=
              Attempt(Env(ResponderWorld(scene), patience), t, OrderUrl(scene.base, n), views, routes,
                      GeneratedCsr(key, values));
            && chain == ChainFor(scene, values, key)
            && |provisioned| == |values| && OpenNow(ResponderWorld(scene), done, provisioned)
            && Sends(done) ==
               Sends(t) + Working(scene.base, n, after, ServerAfter(scene, t).certCounter + 1, values, routes, key)
  {
    hide ResponderWorld, ServerAfter, FaithfulWire, ValidValues, OrderOpen, ValidUpTo, IdentifiersOfValues, OrderUrl,
      ViewsOf, NamesOf, Sends, GeneratedCsr, Solve, PollAuthzs, Obtain, AuthzUrl, OpenNow, OnlySends, ChainFor, Closing,
      Answers, Reads, AuthzUrls, UrlsIn;
    var world, c := ResponderWorld(scene), ServerAfter(scene, t).certCounter + 1;
    NothingValidYet(ServerAfter(scene, t), scene.base, after);
    AllSolved(scene, t, n, after, values, views, routes, 0, []);
    assert views[0..] == views;
    var answers := Answers(scene.base, after, values, routes);
    assert answers[0..] == answers;
    var (t1, provisioned, solved) := Solve(world, t, views, routes, []);
    ViewUrls(views, scene.base, after, values, routes);
    AllPolled(scene, patience, t1, after, views, 0);
    SameReads(views, scene.base, after, values, routes);
    var again := Reads(UrlsIn(views));
    assert again[0..] == again;
    var t2 := PollAuthzs(Env(world, patience), t1, views).0;
    PollAuthzsSends(Env(world, patience), t1, views);
    SendsKeepOpen(world, t1, t2, provisioned);
    Obtained(scene, patience, t2, n, after, values, key);
    ObtainSends(Env(world, patience), t2, OrderUrl(scene.base, n), GeneratedCsr(key, values));
    SendsKeepOpen(world, t2, Obtain(Env(world, patience), t2, OrderUrl(scene.base, n), GeneratedCsr(key, values)).0,
                  provisioned);
    var closing := Closing(scene.base, n, c, values, key);
    assert Sends(t) + answers + again + closing == Sends(t) + (answers + (again + closing));
  }

  lemma SameReads(views: seq<Fetched>, base: string, after: nat, values: seq<Value>, routes: RouteMap)
    requires ViewsOf(views, base, after, values, routes)
    ensures UrlsIn(views) == AuthzUrls(base, after, |values|)
  {
    hide Choose, SolvedUrl, KeyOfValue, Compatible, Nth;
  }

  lemma NothingValidYet(s: State, base: string, after: nat)
    ensures ValidUpTo(s, base, after, 0)
  {
  }

  lemma ViewUrls(views: seq<Fetched>, base: string, after: nat, values: seq<Value>, routes: RouteMap)
    requires ViewsOf(views, base, after, values, routes)
    ensures |views| == |values| && forall i :: 0 <= i < |views| ==> views[i].url == Nth(base, after, i)
  {
    hide AuthzUrl, Choose, SolvedUrl, KeyOfValue, Compatible;
  }

  /** The requests of `issue` once the order is placed. */
  function Placed(base: string, n: nat, after: nat, c: nat, values: seq<Value>, routes: RouteMap, key: PublicKey)
    : seq<Sent>
    requires values != []
  {
    Reads(AuthzUrls(base, after, |values|)) + Working(base, n, after, c, values, routes, key)
  }

  /** The leaf issued, if a CSR can be generated. */
  function LeafFor(values: seq<Value>, key: PublicKey): Option<Certificate> {
    if CommonNameFits(values) then Some(Certificate(NamesOf(values), key)) else None
  }

  /** The part under `try` gets to its end with one challenge provisioned per identifier, and
      with the chain if a CSR can be generated. */
  predicate ReachesEnd(scene: Scene, patience: Patience, setup: Setup, values: seq<Value>, routes: RouteMap,
                       t: Trace, n: nat, after: nat, order: OrderView) {
    && values != []
    && var (t1, authzs) := FetchAll(ResponderWorld(scene), t, order.authorizations, []);
      && authzs.Some?
      && var (t2, provisioned, chain) :=
           Attempt(Env(ResponderWorld(scene), patience), t1, OrderUrl(scene.base, n), authzs.value, routes,
                   GeneratedCsr(setup.certKey, values));
         && chain == ChainFor(scene, values, setup.certKey)
         && |provisioned| == |values| && OpenNow(ResponderWorld(scene), t2, provisioned)
         && Sends(t2) ==
            Sends(t) + Placed(scene.base, n, after, ServerAfter(scene, t).certCounter + 1, values, routes,
              setup.certKey)
  }

  /** From the placed order to the end of the part under `try`. */
  lemma Reached(scene: Scene, patience: Patience, setup: Setup, values: seq<Value>, routes: RouteMap, t: Trace,
                n: nat, after: nat, order: OrderView)
    requires FaithfulWire(scene.wire) && values != [] && ValidValues(values)
    requires OrderOpen(ServerAfter(scene, t), scene.base, n, after, IdentifiersOfValues(values))
    requires order.authorizations == AuthzUrls(scene.base, after, |values|)
    requires AllCompatible(values, routes) && forall key :: key in routes ==> !routes[key].kind.OtherType?
    requires OpenNow(ResponderWorld(scene), t, [])
    ensures ReachesEnd(scene, patience, setup, values, routes, t, n, after, order)
  {
    hide ResponderWorld, ServerAfter, FaithfulWire, ValidValues, OrderOpen, IdentifiersOfValues, OrderUrl, ViewsOf,
      Sends, GeneratedCsr, FetchAll, Attempt, AuthzUrl, AuthzUrls, AllCompatible, AllViews, OpenNow, Working, Reads,
        ChainFor;
    var s, world := ServerAfter(scene, t), ResponderWorld(scene);
    var urls := AuthzUrls(scene.base, after, |values|);
    FetchedViews(s, scene.base, n, after, values, routes);
    var views := AllViews(s, scene.base, after, |values|);
    AllFetched(scene, t, after, |values|, 0);
    assert urls[0..] == urls && views[..0] == [] && Reads(urls)[0..] == Reads(urls);
    var t1 := FetchAll(world, t, urls, []).0;
    FetchAllSends(world, t, urls, []);
    SendsKeepOpen(world, t, t1, []);
    Attempted(scene, patience, t1, n, after, values, routes, views, setup.certKey);
    assert Sends(t) + Reads(urls) + Working(scene.base, n, after, s.certCounter + 1, values, routes, setup.certKey)
        == Sends(t) + Placed(scene.base, n, after, s.certCounter + 1, values, routes, setup.certKey);
  }

  /** What `Fulfil` comes to: the leaf if a CSR can be generated, as many deprovisions as
      identifiers, and the listed requests. */
  predicate Fulfils(scene: Scene, patience: Patience, setup: Setup, account: Option<string>, values: seq<Value>,
                    routes: RouteMap, t: Trace, n: nat, after: nat, order: OrderView) {
    && values != []
    && var ending :=
         Fulfil(Env(ResponderWorld(scene), patience), setup, account, values, routes, t, OrderUrl(scene.base, n),
           order);
      && ending.leaf == LeafFor(values, setup.certKey) && ending.accountUrl == account
      && |Cleaned(ending.trace)| == |values|
      && Sends(ending.trace) ==
         Sends(t) + Placed(scene.base, n, after, ServerAfter(scene, t).certCounter + 1, values, routes, setup.certKey)
  }

  lemma Fulfilled(scene: Scene, patience: Patience, setup: Setup, account: Option<string>, values: seq<Value>,
                  routes: RouteMap, t: Trace, n: nat, after: nat, order: OrderView)
    requires FaithfulWire(scene.wire) && values != [] && ValidValues(values)
    requires OrderOpen(ServerAfter(scene, t), scene.base, n, after, IdentifiersOfValues(values))
    requires order.authorizations == AuthzUrls(scene.base, after, |values|)
    requires AllCompatible(values, routes) && forall key :: key in routes ==> !routes[key].kind.OtherType?
    requires OpenNow(ResponderWorld(scene), t, [])
    ensures Fulfils(scene, patience, setup, account, values, routes, t, n, after, order)
  {
    hide ResponderWorld, ServerAfter, FaithfulWire, ValidValues, OrderOpen, IdentifiersOfValues, OrderUrl, NamesOf,
      Sends, GeneratedCsr, FetchAll, Attempt, CleanUp, AcceptLeaf, Conclude, AuthzUrls, AllCompatible, OpenNow, Placed,
        Cleaned,
      CommonNameFits;
    var world := ResponderWorld(scene);
    Reached(scene, patience, setup, values, routes, t, n, after, order);
    var (t1, views) := FetchAll(world, t, order.authorizations, []);
    var (t2, provisioned, chain) :=
      Attempt(Env(world, patience), t1, OrderUrl(scene.base, n), views.value, routes,
        GeneratedCsr(setup.certKey, values));
    AllCleaned(scene, t2, provisioned);
    OpenMeans(world, t2, provisioned);
    if CommonNameFits(values) {
      LeafAccepted(values, setup.certKey, scene.root);
      Concluded(scene, CleanUp(world, t2, provisioned).0, setup, Certificate(NamesOf(values), setup.certKey), values);
    }
  }

  lemma OpenMeans(world: World, t: Trace, open: seq<Prepared>)
    requires OpenNow(world, t, open)
    ensures Cleaned(t) == [] && Cleaned(t) + open == open
  {
    hide Successes, Cleaned;
  }

  lemma AtStart(scene: Scene)
    ensures ServerAfter(scene, []) == scene.start && Sends([]) == [] && OpenNow(ResponderWorld(scene), [], [])
  {
    hide Exchange;
  }

  /** The request that opens the account, if it is not yet known. */
  function Opening(setup: Setup, known: bool): seq<Sent> {
    if known then [] else [Sent(setup.newAccount, AccountBody)]
  }

  lemma Opened(scene: Scene, setup: Setup, accountUrl: Option<string>, values: seq<Value>)
    requires FaithfulWire(scene.wire) && Inv(scene.start) && setup.newAccount == scene.base + "/new-account"
    ensures var (t, account) := OpenAccount(ResponderWorld(scene), [], setup, accountUrl, values);
            && account.Some? && (accountUrl.Some? ==> account == accountUrl)
            && Inv(ServerAfter(scene, t)) && SameNumbers(scene.start, ServerAfter(scene, t))
            && Sends(t) == Opening(setup, accountUrl.Some?) && OpenNow(ResponderWorld(scene), t, [])
  {
    hide ResponderWorld, Inv, FaithfulWire, DnsTexts, Exchange, ServerAfter, Sends, OpenNow;
    var check := LimitCheck(DnsTexts(values));
    AtStart(scene);
    LimitChecked(scene, DnsTexts(values));
    var checked := Optionally([], setup.hasLimiter, check);
    assert [] + [check] == [check];
    if accountUrl.None? {
      AccountOpened(scene, checked, setup.newAccount);
      SendsOne(checked, Send(setup.newAccount, AccountBody));
      SendKeepsOpen(ResponderWorld(scene), checked, setup.newAccount, AccountBody, []);
    }
  }

  lemma LimitChecked(scene: Scene, domains: seq<string>)
    ensures var t := [LimitCheck(domains)];
            && ResponderWorld(scene)(t) == Answer.Done && ServerAfter(scene, t) == scene.start
            && Sends(t) == [] && OpenNow(ResponderWorld(scene), t, [])
  {
    hide ResponderWorld, Exchange, ServerAfter, Sends, Successes, Cleaned;
    AtStart(scene);
    var t: Trace := [];
    Called(scene, t, LimitCheck(domains));
    SendsOne(t, LimitCheck(domains));
    OneMore(ResponderWorld(scene), t, LimitCheck(domains));
    assert t + [LimitCheck(domains)] == [LimitCheck(domains)];
  }

  /** All requests of `issue`, from what the caller and the responder know before it: the
      account if it is new, the order, the authorizations, their challenges, the
      authorizations again, the order, and if a CSR can be generated its finalization and the
      certificate. */
  function RunRequests(scene: Scene, setup: Setup, known: bool, values: seq<Value>, routes: RouteMap): seq<Sent>
    requires values != []
  {
    var s := scene.start;
    Opening(setup, known) + [Sent(setup.newOrder, OrderBody(IdentifiersOfValues(values)))]
    + Placed(scene.base, s.orderCounter + 1, s.authzCounter, s.certCounter + 1, values, routes, setup.certKey)
  }

  lemma RequestCount(scene: Scene, setup: Setup, known: bool, values: seq<Value>, routes: RouteMap)
    requires values != []
    ensures |RunRequests(scene, setup, known, values, routes)| ==
            3 * |values| + (if CommonNameFits(values) then 4 else 2) + if known then 0 else 1
  {
    hide AuthzUrl, SolvedUrl, KeyOfValue, CommonNameFits, CsrFor, OrderUrl, FinalizeUrl, CertUrl;
  }

  /** How `issue` starts: the account is known, the order placed, and nothing provisioned. */
  lemma Started(scene: Scene, setup: Setup, accountUrl: Option<string>, values: seq<Value>)
    requires FaithfulWire(scene.wire) && Inv(scene.start) && values != [] && ValidValues(values)
    requires setup.newAccount == scene.base + "/new-account" && setup.newOrder == scene.base + "/new-order"
    ensures var (t1, account) := OpenAccount(ResponderWorld(scene), [], setup, accountUrl, values);
            var sent := t1 + [Send(setup.newOrder, OrderBody(IdentifiersOfValues(values)))];
            var s, answer := scene.start, ResponderWorld(scene)(sent);
            && account.Some? && answer.OrderAt? && answer.url == OrderUrl(scene.base, s.orderCounter + 1)
            && answer.order.authorizations == AuthzUrls(scene.base, s.authzCounter, |values|)
            && OrderOpen(ServerAfter(scene, sent), scene.base, s.orderCounter + 1, s.authzCounter,
                         IdentifiersOfValues(values))
            && ServerAfter(scene, sent).certCounter == s.certCounter && OpenNow(ResponderWorld(scene), sent, [])
            && Sends(sent) == Opening(setup, accountUrl.Some?)
                              + [Sent(setup.newOrder, OrderBody(IdentifiersOfValues(values)))]
  {
    hide ResponderWorld, ServerAfter, FaithfulWire, ValidValues, OrderOpen, IdentifiersOfValues, OrderUrl, Sends,
      OpenAccount, AuthzUrls, PlaceOrder, Inv, OpenNow;
    Opened(scene, setup, accountUrl, values);
    var t1 := OpenAccount(ResponderWorld(scene), [], setup, accountUrl, values).0;
    OrderStarted(scene, t1, setup.newOrder, values);
  }

  lemma OrderStarted(scene: Scene, t: Trace, url: string, values: seq<Value>)
    requires FaithfulWire(scene.wire) && Inv(ServerAfter(scene, t)) && values != [] && ValidValues(values)
    requires url == scene.base + "/new-order" && OpenNow(ResponderWorld(scene), t, [])
    ensures var s, ids := ServerAfter(scene, t), IdentifiersOfValues(values);
            var sent := t + [Send(url, OrderBody(ids))];
            var answer := ResponderWorld(scene)(sent);
            && answer.OrderAt? && answer.url == OrderUrl(scene.base, s.orderCounter + 1)
            && answer.order.authorizations == AuthzUrls(scene.base, s.authzCounter, |values|)
            && OrderOpen(ServerAfter(scene, sent), scene.base, s.orderCounter + 1, s.authzCounter, ids)
            && ServerAfter(scene, sent).certCounter == s.certCounter && OpenNow(ResponderWorld(scene), sent, [])
            && Sends(sent) == Sends(t) + [Sent(url, OrderBody(ids))]
  {
    hide ResponderWorld, ServerAfter, FaithfulWire, ValidValues, OrderOpen, IdentifiersOfValues, OrderUrl, Sends,
      AuthzUrls, PlaceOrder, Inv, OpenNow, ValidIdentifiers;
    var ids := IdentifiersOfValues(values);
    OrderPlaced(scene, t, url, values);
    SendsOne(t, Send(url, OrderBody(ids)));
    SendKeepsOpen(ResponderWorld(scene), t, url, OrderBody(ids), []);
    RequestedValid(values);
    PlacedIsOpen(ServerAfter(scene, t), scene.base, ids, scene.tokens(|Sends(t)| + 1));
  }

  lemma RequestedValid(values: seq<Value>)
    requires values != [] && ValidValues(values)
    ensures var ids := IdentifiersOfValues(values); ids != [] && |ids| == |values| && ValidIdentifiers(ids)
  {
    hide ValidValues, ValidIdentifiers, IdentifiersOfValues;
    ValuesWireRoundTrip(values);
    SameLength(values);
  }

  lemma IssueRequests(scene: Scene, patience: Patience, setup: Setup, accountUrl: Option<string>,
                      values: seq<Value>, routes: RouteMap)
    requires FaithfulWire(scene.wire) && Inv(scene.start) && values != [] && ValidValues(values)
    requires setup.newAccount == scene.base + "/new-account" && setup.newOrder == scene.base + "/new-order"
    requires Plan(setup, values) == Some(routes) && AllCompatible(values, routes)
    requires forall key :: key in routes ==> !routes[key].kind.OtherType?
    ensures var ending := IssueRun(Env(ResponderWorld(scene), patience), [], setup, accountUrl, values);
            && ending.leaf == LeafFor(values, setup.certKey) && ending.accountUrl.Some?
            && Sends(ending.trace) == RunRequests(scene, setup, accountUrl.Some?, values, routes)
            && |Cleaned(ending.trace)| == |values|
  {
    hide ResponderWorld, ServerAfter, FaithfulWire, ValidValues, OrderOpen, IdentifiersOfValues, OrderUrl, LeafFor,
      Sends, OpenAccount, Fulfil, AuthzUrls, Plan, Inv, AllCompatible, OpenNow, Placed, Cleaned, Opening;
    Started(scene, setup, accountUrl, values);
    var (t1, account) := OpenAccount(ResponderWorld(scene), [], setup, accountUrl, values);
    var t2 := t1 + [Send(setup.newOrder, OrderBody(IdentifiersOfValues(values)))];
    Fulfilled(scene, patience, setup, account, values, routes, t2, scene.start.orderCounter + 1,
              scene.start.authzCounter, ResponderWorld(scene)(t2).order);
  }

  /** End to end: for every non-empty list of valid identifiers, duplicates and case variants
      included, with a handler and a compatible HTTP or DNS challenge type for each, `issue`
      against a responder in any consistent state succeeds exactly when the first identifier's
      text fits a common name. It makes exactly the requests of `RunRequests`: with n
      identifiers 3n + 4, or 3n + 2 when it fails, and one more when the account is new. It
      provisions and deprovisions one challenge per identifier either way, and on success the
      certificate has exactly the requested typed values as SANs, in order, and the generated
      key. */
  lemma IssueSucceeds(scene: Scene, patience: Patience, setup: Setup, accountUrl: Option<string>,
                      values: seq<Value>)
    requires FaithfulWire(scene.wire) && Inv(scene.start)
    requires setup.newAccount == scene.base + "/new-account" && setup.newOrder == scene.base + "/new-order"
    requires Plan(setup, values).Some?
    requires forall key :: key in Plan(setup, values).value ==> !Plan(setup, values).value[key].kind.OtherType?
    ensures values != []
    ensures var ending := IssueRun(Env(ResponderWorld(scene), patience), [], setup, accountUrl, values);
            && (ending.leaf.Some? <==> |ValueText(values[0])| <= 64)
            && (ending.leaf.Some? ==> ending.leaf == Some(Certificate(NamesOf(values), setup.certKey)))
            && ending.accountUrl.Some?
            && Sends(ending.trace) == RunRequests(scene, setup, accountUrl.Some?, values, Plan(setup, values).value)
            && |Sends(ending.trace)|
               == 3 * |values| + (if ending.leaf.Some? then 4 else 2) + (if accountUrl.Some? then 0 else 1)
            && Successes(ResponderWorld(scene), ending.trace) == Cleaned(ending.trace)
            && |Cleaned(ending.trace)| == |values|
  {
    hide ResponderWorld, FaithfulWire, ValidValues, NamesOf, Sends, Plan, Inv, AllCompatible, Cleaned, Successes,
      ValueText, IssueRun, RunRequests;
    PlanMeans(setup, values);
    IssueRequests(scene, patience, setup, accountUrl, values, Plan(setup, values).value);
    RequestCount(scene, setup, accountUrl.Some?, values, Plan(setup, values).value);
    ResponderRunBalanced(scene, patience, setup, accountUrl, values);
  }

  lemma ResponderRunBalanced(scene: Scene, patience: Patience, setup: Setup, accountUrl: Option<string>,
                             values: seq<Value>)
    ensures var t := IssueRun(Env(ResponderWorld(scene), patience), [], setup, accountUrl, values).trace;
            Successes(ResponderWorld(scene), t) == Cleaned(t)
  {
    hide IssueRun, AllJustified, Plan, ServerAfter, Exchange, AnswerTo;
    var env := Env(ResponderWorld(scene), patience);
    var t := IssueRun(env, [], setup, accountUrl, values).trace;
    IssueBalanced(env, [], setup, accountUrl, values);
    forall i: nat ensures !CancelledEarly(env.world, t, i) {
      if i < |t| { assert t[..i + 1][|t[..i + 1]| - 1] == t[i]; }
    }
  }

  lemma PlanMeans(setup: Setup, values: seq<Value>)
    requires Plan(setup, values).Some?
    ensures values != [] && ValidValues(values) && AllCompatible(values, Plan(setup, values).value)
  {
    hide ValidValues, AllCompatible, Overrides, Effective;
  }

  // ---------------------------------------------------------------- the account URL

  /** Whatever is posted to an account URL, the responder answers that there is nothing, and the
      client raises: `deactivate_account` cannot succeed. */
  lemma AccountUrlRefused(scene: Scene, s: State, n: nat, body: Body, k: nat)
    ensures Exchange(scene, s, AccountUrl(scene.base, n), body, k) == (s, Raised)
  {
    hide Raw, RouteOf, AccountUrl, Serve, AnswerTo, PathOf;
    var path := PathOf(AccountKind, n);
    MintedRoutes(AccountKind, n);
    MintedPath(AccountKind, scene.base, n);
    assert AccountUrl(scene.base, n)[|scene.base|..] == path;
    var request := Request(scene.base, path, Raw(scene.wire, AccountUrl(scene.base, n), body, k));
    UnknownServed(s, request, scene.tokens(k));
    NotFoundRaises(body, scene.root);
  }

  lemma UnknownServed(s: State, request: Request, tokens: nat -> string)
    requires RouteOf(request.path) == UnknownRoute
    ensures Serve(AutoApprove, s, request, tokens) == (s, Outcome.Answer(NotFound))
  {
    hide RouteOf, Handle, ParseJws;
  }

  lemma NotFoundRaises(body: Body, root: Certificate)
    ensures AnswerTo(body, NotFound, root) == Raised
  {
  }

  // ---------------------------------------------------------------- where it fails

  /** A valid name of 65 characters, too long for a common name. */
  function LongName(): string {
    LongLabel() + "." + LongLabel()
  }

  function LongLabel(): string {
    seq(32, _ => 'a')
  }

  lemma LongNameValid()
    ensures |LongName()| == 65 && LongName()[0] == 'a' && ValidDns(LongName(), true)
  {
    hide ValidLabel, LongLabel, ValidDns;
    LongLabelValid();
    TwoLabelsValid(LongLabel());
  }

  /** A short plain label twice makes a valid name. */
  lemma TwoLabelsValid(part: string)
    requires ValidLabel(part) && |part| <= 63
    requires forall i :: 0 <= i < |part| ==> part[i] == 'a'
    ensures ValidDns(part + "." + part, true)
  {
    hide ValidLabel, Split;
    var name := part + "." + part;
    TwoLabelsSplit(part);
    LabelNotEmpty(part);
    NotWildcard(name);
    assert forall i :: 0 <= i < |name| ==> name[i] == 'a' || name[i] == '.';
  }

  lemma TwoLabelsSplit(part: string)
    requires '.' !in part
    ensures Split(part + "." + part, '.') == [part, part]
  {
    hide Split;
    var parts := [part, part];
    assert parts[1..] == [part];
    assert Join(parts, '.') == part + "." + part;
    SplitJoin(parts, '.');
  }

  lemma LabelNotEmpty(part: string)
    requires ValidLabel(part)
    ensures part != ""
  {
  }

  lemma LongLabelValid()
    ensures ValidLabel(LongLabel()) && |LongLabel()| == 32
    ensures forall i :: 0 <= i < 32 ==> LongLabel()[i] == 'a'
  {
    assert Lower(LongLabel())[0] == 'a' && "xn--"[0] == 'x';
  }

  lemma NotWildcard(name: string)
    requires name != "" && name[0] == 'a'
    ensures !("*." <= name)
  {
    assert "*."[0] == '*';
  }

  /** Issuing for that name fails, although its challenge is provisioned and validated. */
  lemma LongNameFails(scene: Scene, patience: Patience, setup: Setup, accountUrl: Option<string>)
    requires FaithfulWire(scene.wire) && Inv(scene.start)
    requires setup.newAccount == scene.base + "/new-account" && setup.newOrder == scene.base + "/new-order"
    requires setup.challengeMap == [] && setup.challengeType == Http01 && setup.defaultHandler.Some?
    ensures var ending := IssueRun(Env(ResponderWorld(scene), patience), [], setup, accountUrl, [Dns(LongName())]);
            ending.leaf.None? && |Cleaned(ending.trace)| == 1
  {
    hide IssueRun, ResponderWorld, Inv, FaithfulWire, Cleaned, Successes, Sends, RunRequests, LongName, ValidDns,
      NamesOf, Lower;
    var values := [Dns(LongName())];
    LongNameValid();
    LongNamePlanned(setup, LongName());
    IssueSucceeds(scene, patience, setup, accountUrl, values);
  }

  lemma LongNamePlanned(setup: Setup, name: string)
    requires ValidDns(name, true) && name == LongName()
    requires setup.challengeMap == [] && setup.challengeType == Http01 && setup.defaultHandler.Some?
    ensures Plan(setup, [Dns(name)]).Some?
    ensures forall key :: key in Plan(setup, [Dns(name)]).value ==> !Plan(setup, [Dns(name)]).value[key].kind.OtherType?
  {
    hide ValidDns, Lower;
    var values := [Dns(name)];
    assert values[..0] == [];
    LongNameValid();
    NotWildcard(name);
    assert Effective(setup, map[], []) == Some(map[]);
  }
}
