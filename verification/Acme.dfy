/** The ACME server's resources and what each request does to them, one request at a time. */
module Acme {
  import opened Wrappers
  import opened Text
  import opened Json
  import opened Identifiers
  import opened CsrBinding
  import opened Jose
  import opened Routes

  // ---------------------------------------------------------------- resources

  datatype OrderStatus = OrderPending | OrderReady | OrderProcessing | OrderValid | OrderInvalid

  /** `AuthzClosed` stands for deactivated, expired and revoked. */
  datatype AuthzStatus = AuthzPending | AuthzValid | AuthzInvalid | AuthzClosed

  datatype ChallengeStatus = ChallengePending | ChallengeProcessing | ChallengeValid | ChallengeInvalid

  datatype Account = Account(url: string, contact: Json, thumbprint: string)

  datatype Order = Order(
    url: string, identifiers: seq<Identifier>, status: OrderStatus, authzUrls: seq<string>,
    finalizeUrl: string, certificateUrl: Option<string>)

  datatype Authz = Authz(
    url: string, identifierValue: string, kind: Kind, wildcard: bool, status: AuthzStatus, token: string,
    challengeUrl: string, dnsChallengeUrl: string, challengeStatus: ChallengeStatus)

  /** A leaf certificate by its SANs and its key. */
  datatype Certificate = Certificate(sans: seq<GeneralName>, key: PublicKey)

  /** The server's dictionaries and counters. The key lists record the insertion order of
      the dictionaries that are searched or enumerated. */
  datatype State = State(
    accounts: seq<Account>,
    orders: map<string, Order>, orderKeys: seq<string>,
    authzs: map<string, Authz>, authzKeys: seq<string>,
    certificates: map<string, Certificate>,
    nonceCounter: nat, accountCounter: nat, orderCounter: nat, authzCounter: nat, certCounter: nat)

  const EMPTY: State := State([], map[], [], map[], [], map[], 0, 0, 0, 0, 0)

  // ---------------------------------------------------------------- messages

  datatype OrderView = OrderView(
    status: OrderStatus, identifiers: seq<Identifier>, authorizations: seq<string>,
    finalize: string, certificate: Option<string>)

  datatype ChallengeView = ChallengeView(isDns: bool, url: string, token: string, status: ChallengeStatus)

  datatype AuthzView = AuthzView(
    status: AuthzStatus, kind: Kind, value: string, wildcard: bool, challenges: seq<ChallengeView>)

  datatype ProblemKind =
    | MalformedProblem | UnsupportedIdentifier | AccountDoesNotExist | OrderNotReady | BadCsr | BadNonce | OtherProblem

  /** What a response says, apart from its `Replay-Nonce` header; `Unhandled` stands for an
      exception that leaves the handler. */
  datatype Response =
    | DirectoryDoc(base: string)
    | Done
    | NoContent
    | NotFound
    | Unhandled
    | Problem(status: nat, kind: ProblemKind)
    | AccountDoc(status: nat, location: string, contact: Json)
    | OrderDoc(status: nat, location: string, order: OrderView)
    | AuthzDoc(authz: AuthzView)
    | ChallengeDoc(challenge: ChallengeView)
    | CertificateDoc(certificate: Certificate)
    | RootDoc

  /** A request: the base URL its scope resolves to, its path, and its body bytes. */
  datatype Request = Request(base: string, path: string, raw: Bytes)

  // ---------------------------------------------------------------- accounts

  /** `jwk_thumbprint`, `None` where it raises; otherwise left arbitrary. */
  const ObjectThumbprint: map<string, Json> -> Option<string>

  function Thumbprint(jwk: Json): Option<string> {
    if jwk.Obj? then ObjectThumbprint(jwk.fields) else None
  }

  /** Python truth of a JSON value. */
  predicate Truthy(j: Json) {
    match j
    case Null => false
    case Bool(b) => b
    case Number(n) => n != 0
    case Str(s) => s != ""
    case Arr(items) => items != []
    case Obj(fields) => fields != map[]
  }

  function FindAccount(accounts: seq<Account>, thumbprint: string): Option<Account> {
    if accounts == [] then None
    else if accounts[0].thumbprint == thumbprint then Some(accounts[0])
    else FindAccount(accounts[1..], thumbprint)
  }

  function NewAccount(s: State, base: string, jws: Jws): (State, Response) {
    match Thumbprint(Get(jws.protected, "jwk"))
    case None => (s, Problem(400, MalformedProblem))
    case Some(thumbprint) =>
      match FindAccount(s.accounts, thumbprint)
      case Some(account) => (s, AccountDoc(200, account.url, account.contact))
      case None =>
        if Truthy(Get(jws.payload, "onlyReturnExisting")) then (s, Problem(400, AccountDoesNotExist))
        else
          var n := s.accountCounter + 1;
          var contact := if "contact" in jws.payload then jws.payload["contact"] else Arr([]);
          var account := Account(AccountUrl(base, n), contact, thumbprint);
          (s.(accountCounter := n, accounts := s.accounts + [account]), AccountDoc(201, account.url, contact))
  }

  // ---------------------------------------------------------------- orders

  /** The authorization minted as number `n` for one identifier of an order. */
  function MintAuthz(base: string, n: nat, id: Identifier, token: string): Authz {
    var wildcard := id.kind == DnsKind && "*." <= id.value;
    Authz(AuthzUrl(base, n), if wildcard then id.value[2..] else id.value, id.kind, wildcard, AuthzPending, token,
          ChallengeUrl(base, n), DnsChallengeUrl(base, n), ChallengePending)
  }

  function MintAuthzs(base: string, after: nat, ids: seq<Identifier>, tokens: nat -> string): (minted: seq<Authz>)
    ensures |minted| == |ids|
  {
    seq(|ids|, i requires 0 <= i < |ids| => MintAuthz(base, after + i + 1, ids[i], tokens(i)))
  }

  function UrlsOf(authzs: seq<Authz>): (urls: seq<string>)
    ensures |urls| == |authzs|
  {
    seq(|authzs|, i requires 0 <= i < |authzs| => authzs[i].url)
  }

  /** The dictionary after storing each authorization under its URL. */
  function StoreAuthzs(authzs: map<string, Authz>, minted: seq<Authz>): map<string, Authz> {
    if minted == [] then authzs
    else StoreAuthzs(authzs, minted[..|minted| - 1])[minted[|minted| - 1].url := minted[|minted| - 1]]
  }

  function ViewOf(order: Order): OrderView {
    OrderView(order.status, order.identifiers, order.authzUrls, order.finalizeUrl, order.certificateUrl)
  }

  function NewOrder(s: State, base: string, payload: map<string, Json>, tokens: nat -> string): (State, Response) {
    match NormalizeIdentifiers(Get(payload, "identifiers"))
    case Err(Unsupported) => (s, Problem(400, UnsupportedIdentifier))
    case Err(Malformed) => (s, Problem(400, MalformedProblem))
    case Ok(ids) => PlaceOrder(s, base, ids, tokens)
  }

  function PlaceOrder(s: State, base: string, ids: seq<Identifier>, tokens: nat -> string): (State, Response) {
    var n := s.orderCounter + 1;
    var minted := MintAuthzs(base, s.authzCounter, ids, tokens);
    var order := Order(OrderUrl(base, n), ids, OrderPending, UrlsOf(minted), FinalizeUrl(base, n), None);
    (s.(orderCounter := n, authzCounter := s.authzCounter + |ids|,
        authzs := StoreAuthzs(s.authzs, minted), authzKeys := s.authzKeys + UrlsOf(minted),
        orders := s.orders[order.url := order], orderKeys := s.orderKeys + [order.url]),
     OrderDoc(201, order.url, ViewOf(order)))
  }

  // ---------------------------------------------------------------- authorizations

  function ChallengesOf(authz: Authz): seq<ChallengeView> {
    (if authz.wildcard then [] else [ChallengeView(false, authz.challengeUrl, authz.token, authz.challengeStatus)])
    + (if authz.kind == DnsKind then [ChallengeView(true, authz.dnsChallengeUrl, authz.token, authz.challengeStatus)]
      else [])
  }

  function FetchAuthz(s: State, url: string): Response {
    if url !in s.authzs then NotFound
    else
      var authz := s.authzs[url];
      AuthzDoc(AuthzView(authz.status, authz.kind, authz.identifierValue, authz.wildcard, ChallengesOf(authz)))
  }

  predicate HttpHit(authz: Authz, url: string) {
    !authz.wildcard && authz.challengeUrl == url
  }

  predicate DnsHit(authz: Authz, url: string) {
    authz.kind == DnsKind && authz.dnsChallengeUrl == url
  }

  /** The first authorization, in insertion order, that advertises the challenge URL. */
  function FindChallenge(authzs: map<string, Authz>, keys: seq<string>, url: string): Option<string> {
    if keys == [] then None
    else if keys[0] in authzs && (HttpHit(authzs[keys[0]], url) || DnsHit(authzs[keys[0]], url)) then Some(keys[0])
    else FindChallenge(authzs, keys[1..], url)
  }

  function SetStatus(s: State, key: string, status: AuthzStatus, challenge: ChallengeStatus): State
    requires key in s.authzs
  {
    s.(authzs := s.authzs[key := s.authzs[key].(status := status, challengeStatus := challenge)])
  }

  /** The response to a challenge request, read from the authorization as it is then. */
  function ChallengeAnswer(s: State, key: string, url: string): Response
    requires key in s.authzs
  {
    var authz := s.authzs[key];
    ChallengeDoc(ChallengeView(!HttpHit(authz, url), url, authz.token, authz.challengeStatus))
  }

  // ---------------------------------------------------------------- finalization

  predicate AllValid(s: State, urls: seq<string>) {
    forall i :: 0 <= i < |urls| ==> urls[i] in s.authzs && s.authzs[urls[i]].status == AuthzValid
  }

  /** The automatic transition to "ready" both order handlers perform first. */
  function Promote(s: State, url: string): State
    requires url in s.orders
  {
    var order := s.orders[url];
    if order.status == OrderPending && AllValid(s, order.authzUrls)
    then s.(orders := s.orders[url := order.(status := OrderReady)]) else s
  }

  function FetchOrder(s: State, url: string): (State, Response) {
    if url !in s.orders then (s, NotFound)
    else
      var promoted := Promote(s, url);
      (promoted, OrderDoc(200, url, ViewOf(promoted.orders[url])))
  }

  /** `issue_from_csr` with the validated identifiers: their SANs, the request's key. */
  function SignCsr(der: Bytes, values: seq<Value>): Certificate
    requires LoadCsr(der).Some?
  {
    Certificate(seq(|values|, i requires 0 <= i < |values| => NameOfValue(values[i])), LoadCsr(der).value.key)
  }

  function Finalize(s: State, base: string, path: string, payload: map<string, Json>): (State, Response) {
    var url := base + "/order/" + LastSegment(path);
    if url !in s.orders then (s, NotFound)
    else
      var promoted := Promote(s, url);
      var order := promoted.orders[url];
      if order.status != OrderReady then (promoted, Problem(403, OrderNotReady))
      else
        match DecodeCsr(Get(payload, "csr"), order.identifiers)
        case None => (promoted, Problem(400, BadCsr))
        case Some((der, values)) =>
          if !CommonNameFits(values) then (promoted, Unhandled)
          else Issue(promoted, base, url, SignCsr(der, values))
  }

  function Issue(s: State, base: string, url: string, certificate: Certificate): (State, Response)
    requires url in s.orders
  {
    var n := s.certCounter + 1;
    var certUrl := CertUrl(base, n);
    var order := s.orders[url].(status := OrderValid, certificateUrl := Some(certUrl));
    (s.(certCounter := n, certificates := s.certificates[certUrl := certificate], orders := s.orders[url := order]),
     OrderDoc(200, url, ViewOf(order)))
  }

  function FetchCertificate(s: State, url: string): Response {
    if url in s.certificates then CertificateDoc(s.certificates[url]) else NotFound
  }

  // ---------------------------------------------------------------- dispatch

  /** Whether a route reads and checks a JWS body, and the payload it then expects. */
  function ModeOf(route: Route): Option<PayloadMode> {
    match route
    case NewAccountRoute => Some(ObjectMode)
    case NewOrderRoute => Some(ObjectMode)
    case ChallengeRoute => Some(ObjectMode)
    case FinalizeRoute => Some(ObjectMode)
    case KeyChangeRoute => Some(ObjectMode)
    case RevokeRoute => Some(ObjectMode)
    case AuthzRoute => Some(EmptyMode)
    case OrderRoute => Some(EmptyMode)
    case CertRoute => Some(EmptyMode)
    case _ => None
  }

  /** How challenges are decided. */
  datatype Approval = AutoApprove | External | Never

  /** Handling either ends with a response or waits for the external validator. */
  datatype Outcome = Answer(response: Response) | AwaitVerdict(key: string)

  function RespondChallenge(approval: Approval, s: State, url: string): (State, Outcome) {
    match FindChallenge(s.authzs, s.authzKeys, url)
    case None => (s, Answer(NotFound))
    case Some(key) =>
      if key !in s.authzs then (s, Answer(NotFound))
      else
        match approval
        case AutoApprove =>
          var approved := SetStatus(s, key, AuthzValid, ChallengeValid);
          (approved, Answer(ChallengeAnswer(approved, key, url)))
        case External => (s, AwaitVerdict(key))
        case Never =>
          var waiting := SetStatus(s, key, s.authzs[key].status, ChallengeProcessing);
          (waiting, Answer(ChallengeAnswer(waiting, key, url)))
  }

  /** The second half of an externally validated challenge request. */
  function SettleChallenge(s: State, key: string, url: string, verdict: bool): (State, Response)
    requires key in s.authzs
  {
    var settled := if verdict then SetStatus(s, key, AuthzValid, ChallengeValid)
                   else SetStatus(s, key, AuthzInvalid, ChallengeInvalid);
    (settled, ChallengeAnswer(settled, key, url))
  }

  /** What a routed request does once its body has been parsed. */
  function Handle(approval: Approval, s: State, req: Request, jws: Jws, tokens: nat -> string): (State, Outcome) {
    var url := req.base + req.path;
    match RouteOf(req.path)
    case NewAccountRoute => var (t, r) := NewAccount(s, req.base, jws); (t, Answer(r))
    case NewOrderRoute => var (t, r) := NewOrder(s, req.base, jws.payload, tokens); (t, Answer(r))
    case AuthzRoute => (s, Answer(FetchAuthz(s, url)))
    case ChallengeRoute => RespondChallenge(approval, s, url)
    case FinalizeRoute => var (t, r) := Finalize(s, req.base, req.path, jws.payload); (t, Answer(r))
    case OrderRoute => var (t, r) := FetchOrder(s, url); (t, Answer(r))
    case CertRoute => (s, Answer(FetchCertificate(s, url)))
    case _ => (s, Answer(Done))
  }

  /** Routes that answer without reading a body. */
  function Immediate(req: Request): Response {
    match RouteOf(req.path)
    case DirectoryRoute => DirectoryDoc(req.base)
    case NewNonceRoute => Done
    case CaRoute => RootDoc
    case _ => NotFound
  }

  /** One request handled without interruption, its nonce already taken. */
  function Serve(approval: Approval, s: State, req: Request, tokens: nat -> string): (State, Outcome) {
    match ModeOf(RouteOf(req.path))
    case None => (s, Answer(Immediate(req)))
    case Some(mode) =>
      match ParseJws(req.raw, mode)
      case None => (s, Answer(Problem(400, MalformedProblem)))
      case Some(jws) => Handle(approval, s, req, jws, tokens)
  }
}
