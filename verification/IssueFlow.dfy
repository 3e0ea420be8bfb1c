/** `Client.issue`: what it asks of the server, the challenge handlers, the store, the
    limiter and the event dispatcher, in which order, and what it does with the answers. */
module IssueFlow {
  import opened Wrappers
  import opened Identifiers
  import opened CsrBinding
  import opened Acme
  import opened Polling
  import opened Renewal

  // ---------------------------------------------------------------- effects and answers

  datatype ChallengeType = Http01 | Dns01 | OtherType(name: string)

  /** A challenge handler, by name. */
  type Handler = nat

  datatype Offer = Offer(kind: ChallengeType, url: string, token: string)

  /** An authorization as the client parses it. */
  datatype Authorization = Authorization(status: AuthzStatus, kind: Kind, value: string, wildcard: bool,
    offers: seq<Offer>)

  datatype Body =
    | AccountBody
    | OrderBody(ids: seq<Identifier>)
    | EmptyBody
    | ReadyBody
    | CsrBody(csr: Csr)

  /** A challenge response put in place by a handler. */
  datatype Prepared = Prepared(handler: Handler, domain: string, token: string)

  /** One call to the outside: a signed request, or a call of a handler or a collaborator. */
  datatype Effect =
    | LimitCheck(domains: seq<string>)
    | Send(url: string, body: Body)
    | Provision(prepared: Prepared)
    | Deprovision(prepared: Prepared)
    | SaveCert(leaf: Certificate, domains: seq<string>)
    | RecordIssuance(domains: seq<string>)
    | EmitIssued(domains: seq<string>)

  /** How a call comes back: `Raised` stands for an ordinary exception and `Cancelled` for a
      cancellation (or another exception that `except Exception` lets pass). */
  datatype Answer =
    | Raised
    | Cancelled
    | Done
    | Blocked
    | AccountAt(url: string)
    | OrderAt(url: string, order: OrderView)
    | OrderIs(order: OrderView)
    | AuthzIs(authz: Authorization)
    | ChainIs(certificates: Option<seq<Certificate>>)

  predicate Fails(answer: Answer) {
    answer.Raised? || answer.Cancelled?
  }

  type Trace = seq<Effect>

  /** The outside world: its answer to the last call of a history. */
  type World = Trace -> Answer

  /** The polling loops of `issue`: for an authorization, until an order is ready, and until it
      is valid. */
  datatype Loop = AuthzLoop | ReadyLoop | ValidLoop

  /** How many more requests a loop makes before its deadline, by the history before it, the
      resource it polls, and which loop it is. */
  type Patience = (Trace, string, Loop) -> nat

  datatype Env = Env(world: World, patience: Patience)

  // ---------------------------------------------------------------- configuration

  datatype Override = Override(value: Value, kind: ChallengeType, handler: Handler)

  datatype Setup = Setup(
    newAccount: string, newOrder: string, challengeType: ChallengeType, defaultHandler: Option<Handler>,
    challengeMap: seq<Override>, hasStore: bool, hasLimiter: bool, hasEvents: bool, certKey: PublicKey)

  /** Where an identifier's challenge goes. */
  datatype Route = Route(domain: string, kind: ChallengeType, handler: Handler)

  type RouteMap = map<Key, Route>

  /** `challenge_overrides`, unless some key of the map is not an identifier. */
  function Overrides(challengeMap: seq<Override>): Option<map<Key, Override>> {
    if challengeMap == [] then Some(map[])
    else
      var last := challengeMap[|challengeMap| - 1];
      match Overrides(challengeMap[..|challengeMap| - 1])
      case None => None
      case Some(rest) => if ValidValue(last.value) then Some(rest[KeyOfValue(last.value) := last]) else None
  }

  function RouteFor(setup: Setup, overrides: map<Key, Override>, value: Value): Option<Route> {
    var key := KeyOfValue(value);
    if key in overrides then Some(Route(ValueText(value), overrides[key].kind, overrides[key].handler))
    else if setup.defaultHandler.Some?
      then Some(Route(ValueText(value), setup.challengeType, setup.defaultHandler.value))
    else None
  }

  /** `effective`, unless some identifier has no handler. */
  function Effective(setup: Setup, overrides: map<Key, Override>, values: seq<Value>): Option<RouteMap> {
    if values == [] then Some(map[])
    else
      var last := values[|values| - 1];
      match (Effective(setup, overrides, values[..|values| - 1]), RouteFor(setup, overrides, last))
      case (Some(routes), Some(route)) => Some(routes[KeyOfValue(last) := route])
      case _ => None
  }

  predicate Compatible(value: Value, kind: ChallengeType) {
    match value
    case Dns(name) => !("*." <= name && kind == Http01)
    case Ip(_) => kind != Dns01
  }

  predicate AllCompatible(values: seq<Value>, routes: RouteMap) {
    forall i :: 0 <= i < |values| ==>
      KeyOfValue(values[i]) in routes && Compatible(values[i], routes[KeyOfValue(values[i])].kind)
  }

  /** The checks before anything is called, and the routes they establish. */
  function Plan(setup: Setup, values: seq<Value>): Option<RouteMap> {
    if values == [] || !ValidValues(values) then None
    else
      match Overrides(setup.challengeMap)
      case None => None
      case Some(overrides) =>
        match Effective(setup, overrides, values)
        case None => None
        case Some(routes) => if AllCompatible(values, routes) then Some(routes) else None
  }

  /** The names that count towards registered-domain limits. */
  function DnsTexts(values: seq<Value>): seq<string> {
    if values == [] then []
    else
      var rest, last := DnsTexts(values[..|values| - 1]), values[|values| - 1];
      if last.Dns? then rest + [last.name] else rest
  }

  // ---------------------------------------------------------------- authorizations

  datatype Fetched = Fetched(url: string, authz: Authorization)

  /** The identifier an authorization claims to be for; `None` where the client raises. */
  function Claim(authz: Authorization): Option<Key> {
    if authz.wildcard && (authz.kind != DnsKind || !ValidDns(authz.value, false)) then None
    else
      var id := Identifier(authz.kind, if authz.wildcard then "*." + authz.value else authz.value);
      if ValidIdentifier(id) then Some(KeyOfIdentifier(id)) else None
  }

  /** `find_challenge`. */
  function FindOffer(offers: seq<Offer>, kind: ChallengeType): (r: Option<Offer>)
    ensures r.Some? ==> r.value in offers && r.value.kind == kind
  {
    if offers == [] then None
    else if offers[0].kind == kind then Some(offers[0])
    else FindOffer(offers[1..], kind)
  }

  /** What is provisioned for an authorization, and where to say so. */
  function Choose(authz: Authorization, routes: RouteMap): Option<(Prepared, string)> {
    match Claim(authz)
    case None => None
    case Some(key) =>
      if key !in routes then None
      else
        match FindOffer(authz.offers, routes[key].kind)
        case None => None
        case Some(offer) => Some((Prepared(routes[key].handler, routes[key].domain, offer.token), offer.url))
  }

  /** `get_authorizations`. */
  function FetchAll(world: World, t: Trace, urls: seq<string>, sofar: seq<Fetched>): (Trace, Option<seq<Fetched>>)
    decreases |urls|
  {
    if urls == [] then (t, Some(sofar))
    else
      var sent := t + [Send(urls[0], EmptyBody)];
      match world(sent)
      case AuthzIs(authz) => FetchAll(world, sent, urls[1..], sofar + [Fetched(urls[0], authz)])
      case _ => (sent, None)
  }

  /** The loop that provisions and responds; it reports what was provisioned and whether it
      got through. */
  function Solve(world: World, t: Trace, authzs: seq<Fetched>, routes: RouteMap, provisioned: seq<Prepared>)
    : (Trace, seq<Prepared>, bool)
    decreases |authzs|
  {
    if authzs == [] then (t, provisioned, true)
    else
      match Choose(authzs[0].authz, routes)
      case None => (t, provisioned, false)
      case Some((prepared, url)) =>
        var called := t + [Provision(prepared)];
        if Fails(world(called)) then (called, provisioned, false)
        else
          var sent := called + [Send(url, ReadyBody)];
          if Fails(world(sent)) then (sent, provisioned + [prepared], false)
          else Solve(world, sent, authzs[1..], routes, provisioned + [prepared])
  }

  // ---------------------------------------------------------------- polling

  /** `poll_authorization`, its deadline after this many more requests. */
  function PollAuthz(world: World, t: Trace, url: string, patience: nat): (Trace, bool)
    decreases patience
  {
    var sent := t + [Send(url, EmptyBody)];
    match world(sent)
    case AuthzIs(authz) =>
      (match JudgeAuthz(authz.status)
       case Success => (sent, true)
       case Failure => (sent, false)
       case Waiting => if patience == 0 then (sent, false) else PollAuthz(world, sent, url, patience - 1))
    case _ => (sent, false)
  }

  function PollAuthzs(env: Env, t: Trace, authzs: seq<Fetched>): (Trace, bool)
    decreases |authzs|
  {
    if authzs == [] then (t, true)
    else
      var (polled, ok) := PollAuthz(env.world, t, authzs[0].url, env.patience(t, authzs[0].url, AuthzLoop));
      if ok then PollAuthzs(env, polled, authzs[1..]) else (polled, false)
  }

  /** `poll_order` and `_poll_order_ready`. */
  function PollOrder(world: World, t: Trace, url: string, judge: OrderStatus -> Verdict, patience: nat)
    : (Trace, Option<OrderView>)
    decreases patience
  {
    var sent := t + [Send(url, EmptyBody)];
    match world(sent)
    case OrderIs(order) =>
      (match judge(order.status)
       case Success => (sent, Some(order))
       case Failure => (sent, None)
       case Waiting => if patience == 0 then (sent, None) else PollOrder(world, sent, url, judge, patience - 1))
    case _ => (sent, None)
  }

  /** The history grew by polls of this resource, at least one and at most one more than the
      patience. */
  predicate Polled(t: Trace, after: Trace, url: string, patience: nat) {
    && t <= after && 1 <= |after| - |t| <= patience + 1
    && forall k :: |t| <= k < |after| ==> after[k] == Send(url, EmptyBody)
  }

  /** An order poll goes on as long as the answers mean waiting, unless its patience is used up,
      and returns the last answer if that means success. */
  lemma {:induction false} PollOrderExact(world: World, t: Trace, url: string, judge: OrderStatus -> Verdict,
                                          patience: nat)
    ensures var (after, order) := PollOrder(world, t, url, judge, patience);
            && Polled(t, after, url, patience)
            && (forall k :: |t| < k < |after| ==>
                  world(after[..k]).OrderIs? && judge(world(after[..k]).order.status) == Waiting)
            && (order.Some? <==> world(after).OrderIs? && judge(world(after).order.status) == Success)
            && (order.Some? ==> world(after) == OrderIs(order.value))
            && (world(after).OrderIs? && judge(world(after).order.status) == Waiting ==> |after| - |t| == patience + 1)
    decreases patience
  {
    var sent := t + [Send(url, EmptyBody)];
    var after := PollOrder(world, t, url, judge, patience).0;
    if world(sent).OrderIs? && judge(world(sent).order.status) == Waiting && patience > 0 {
      PollOrderExact(world, sent, url, judge, patience - 1);
      assert after[..|sent|] == sent;
    }
  }

  /** The status of the order in the world's answer to the last call. */
  function OrderStatusAt(world: World, t: Trace): Option<OrderStatus> {
    if world(t).OrderIs? then Some(world(t).order.status) else None
  }

  function AuthzStatusAt(world: World, t: Trace): Option<AuthzStatus> {
    if world(t).AuthzIs? then Some(world(t).authz.status) else None
  }

  /** What `poll_order` does with every status: it goes on while the order is pending, ready or
      processing, returns it when it is valid, and fails when it is invalid or not answered. */
  ghost predicate WaitsUntilValid(world: World, t: Trace, url: string, patience: nat, after: Trace,
                                  order: Option<OrderView>)
  {
    && Polled(t, after, url, patience)
    && (forall k :: |t| < k < |after| ==>
          OrderStatusAt(world, after[..k]) in {Some(OrderPending), Some(OrderReady), Some(OrderProcessing)})
    && (OrderStatusAt(world, after) in {Some(OrderPending), Some(OrderReady), Some(OrderProcessing)} ==>
          |after| - |t| == patience + 1)
    && order == if OrderStatusAt(world, after) == Some(OrderValid) then Some(world(after).order) else None
  }

  lemma OrderPollExact(world: World, t: Trace, url: string, patience: nat)
    ensures var (after, order) := PollOrder(world, t, url, JudgeOrder, patience);
            WaitsUntilValid(world, t, url, patience, after, order)
  {
    hide Polled, PollOrder;
    PollOrderExact(world, t, url, JudgeOrder, patience);
  }

  /** What `_poll_order_ready` does with every status: it goes on while the order is pending,
      fails when it is invalid or not answered, and returns it in every other status. */
  ghost predicate WaitsWhilePending(world: World, t: Trace, url: string, patience: nat, after: Trace,
                                    order: Option<OrderView>)
  {
    && Polled(t, after, url, patience)
    && (forall k :: |t| < k < |after| ==> OrderStatusAt(world, after[..k]) == Some(OrderPending))
    && (OrderStatusAt(world, after) == Some(OrderPending) ==> |after| - |t| == patience + 1)
    && order == if OrderStatusAt(world, after) in {Some(OrderReady), Some(OrderProcessing), Some(OrderValid)}
                then Some(world(after).order) else None
  }

  lemma ReadyPollExact(world: World, t: Trace, url: string, patience: nat)
    ensures var (after, order) := PollOrder(world, t, url, JudgeReady, patience);
            WaitsWhilePending(world, t, url, patience, after, order)
  {
    hide Polled, PollOrder;
    PollOrderExact(world, t, url, JudgeReady, patience);
  }

  /** What `poll_authorization` does with every status: it goes on while the authorization is
      pending, and succeeds exactly when it is valid at the end. */
  ghost predicate WaitsForAuthz(world: World, t: Trace, url: string, patience: nat, after: Trace, valid: bool) {
    && Polled(t, after, url, patience)
    && (forall k :: |t| < k < |after| ==> AuthzStatusAt(world, after[..k]) == Some(AuthzPending))
    && (AuthzStatusAt(world, after) == Some(AuthzPending) ==> |after| - |t| == patience + 1)
    && (valid <==> AuthzStatusAt(world, after) == Some(AuthzValid))
  }

  lemma {:induction false} AuthzPollExact(world: World, t: Trace, url: string, patience: nat)
    ensures var (after, valid) := PollAuthz(world, t, url, patience);
            WaitsForAuthz(world, t, url, patience, after, valid)
    decreases patience
  {
    var sent := t + [Send(url, EmptyBody)];
    var after := PollAuthz(world, t, url, patience).0;
    if AuthzStatusAt(world, sent) == Some(AuthzPending) && patience > 0 {
      AuthzPollExact(world, sent, url, patience - 1);
      assert after[..|sent|] == sent;
    }
  }

  // ---------------------------------------------------------------- finalization

  /** Finalizing, if the order is not already past that. */
  function FinalizeOrder(world: World, t: Trace, order: OrderView, csr: Csr): (Trace, Option<OrderView>) {
    if order.status != OrderReady then (t, Some(order))
    else
      var sent := t + [Send(order.finalize, CsrBody(csr))];
      match world(sent)
      case OrderIs(next) => (sent, Some(next))
      case _ => (sent, None)
  }

  /** Waiting for the order to be valid, if it is not. */
  function AwaitValid(env: Env, t: Trace, order: OrderView, url: string): (Trace, Option<OrderView>) {
    if order.status == OrderValid then (t, Some(order))
    else PollOrder(env.world, t, url, JudgeOrder, env.patience(t, url, ValidLoop))
  }

  /** Downloading the chain of a valid order. */
  function Download(world: World, t: Trace, order: OrderView): (Trace, Option<Option<seq<Certificate>>>) {
    match order.certificate
    case None => (t, None)
    case Some(url) =>
      var sent := t + [Send(url, EmptyBody)];
      match world(sent)
      case ChainIs(certificates) => (sent, Some(certificates))
      case _ => (sent, None)
  }

  /** From the readiness check to the downloaded chain; `csr` is the request generated once
      the order is ready, unless generating it raises. */
  function Obtain(env: Env, t: Trace, url: string, csr: Option<Csr>): (Trace, Option<Option<seq<Certificate>>>) {
    var (t1, ready) := PollOrder(env.world, t, url, JudgeReady, env.patience(t, url, ReadyLoop));
    if ready.None? || csr.None? then (t1, None)
    else
      var (t2, finalized) := FinalizeOrder(env.world, t1, ready.value, csr.value);
      if finalized.None? then (t2, None)
      else
        var (t3, valid) := AwaitValid(env, t2, finalized.value, url);
        if valid.None? then (t3, None) else Download(env.world, t3, valid.value)
  }

  /** The part under `try`, with what was provisioned when it ended. */
  function Attempt(env: Env, t: Trace, url: string, authzs: seq<Fetched>, routes: RouteMap, csr: Option<Csr>)
    : (Trace, seq<Prepared>, Option<Option<seq<Certificate>>>)
  {
    var (t1, provisioned, solved) := Solve(env.world, t, authzs, routes, []);
    if !solved then (t1, provisioned, None)
    else
      var (t2, valid) := PollAuthzs(env, t1, authzs);
      if !valid then (t2, provisioned, None)
      else
        var (t3, chain) := Obtain(env, t2, url, csr);
        (t3, provisioned, chain)
  }

  /** The `finally` block, and whether it got to its end: a deprovision that raises is
      passed over, one that is cancelled ends the block. */
  function CleanUp(world: World, t: Trace, provisioned: seq<Prepared>): (Trace, bool)
    decreases |provisioned|
  {
    if provisioned == [] then (t, true)
    else
      var called := t + [Deprovision(provisioned[0])];
      if world(called).Cancelled? then (called, false) else CleanUp(world, called, provisioned[1..])
  }

  // ---------------------------------------------------------------- the result

  /** The leaf, if the chain's first certificate has exactly the requested typed
      identifiers and the generated key. */
  function AcceptLeaf(chain: Option<seq<Certificate>>, values: seq<Value>, key: PublicKey): Option<Certificate> {
    if chain.None? || chain.value == [] then None
    else
      var leaf := chain.value[0];
      match CertificateValues(leaf)
      case None => None
      case Some(found) => if KeysOfValues(found) == KeysOfValues(values) && leaf.key == key then Some(leaf) else None
  }

  function Optionally(t: Trace, wanted: bool, effect: Effect): Trace {
    if wanted then t + [effect] else t
  }

  /** Saving, recording and announcing; an exception ends the sequence. */
  function Conclude(world: World, t: Trace, setup: Setup, leaf: Certificate, values: seq<Value>)
    : (Trace, Option<Certificate>)
  {
    var t1 := Optionally(t, setup.hasStore, SaveCert(leaf, Texts(values)));
    if setup.hasStore && Fails(world(t1)) then (t1, None)
    else
      var t2 := Optionally(t1, setup.hasLimiter, RecordIssuance(DnsTexts(values)));
      if setup.hasLimiter && Fails(world(t2)) then (t2, None)
      else
        var t3 := Optionally(t2, setup.hasEvents, EmitIssued(Texts(values)));
        if setup.hasEvents && Fails(world(t3)) then (t3, None) else (t3, Some(leaf))
  }

  /** How `issue` ends: all calls made so far, the account then known, and the leaf of the bundle. */
  datatype Ending = Ending(trace: Trace, accountUrl: Option<string>, leaf: Option<Certificate>)

  /** From the limit check to the known account. */
  function OpenAccount(world: World, t: Trace, setup: Setup, accountUrl: Option<string>, values: seq<Value>)
    : (Trace, Option<string>)
  {
    var checked := Optionally(t, setup.hasLimiter, LimitCheck(DnsTexts(values)));
    if setup.hasLimiter && (world(checked).Blocked? || Fails(world(checked))) then (checked, None)
    else if accountUrl.Some? then (checked, accountUrl)
    else
      var sent := checked + [Send(setup.newAccount, AccountBody)];
      (sent, if world(sent).AccountAt? then Some(world(sent).url) else None)
  }

  /** The whole of `issue`, after the calls made before it. */
  function IssueRun(env: Env, t: Trace, setup: Setup, accountUrl: Option<string>, values: seq<Value>): Ending {
    match Plan(setup, values)
    case None => Ending(t, accountUrl, None)
    case Some(routes) =>
      var (t1, account) := OpenAccount(env.world, t, setup, accountUrl, values);
      if account.None? then Ending(t1, accountUrl, None)
      else
        var t2 := t1 + [Send(setup.newOrder, OrderBody(IdentifiersOfValues(values)))];
        if !env.world(t2).OrderAt? then Ending(t2, account, None)
        else Fulfil(env, setup, account, values, routes, t2, env.world(t2).url, env.world(t2).order)
  }

  /** The rest, once the order is placed. */
  function Fulfil(env: Env, setup: Setup, account: Option<string>, values: seq<Value>, routes: RouteMap, t: Trace,
                  url: string, order: OrderView): Ending
    requires values != []
  {
    var (t1, authzs) := FetchAll(env.world, t, order.authorizations, []);
    if authzs.None? then Ending(t1, account, None)
    else
      var (t2, provisioned, chain) := Attempt(env, t1, url, authzs.value, routes, GeneratedCsr(setup.certKey, values));
      var (t3, cleaned) := CleanUp(env.world, t2, provisioned);
      if chain.None? || !cleaned then Ending(t3, account, None)
      else
        match AcceptLeaf(chain.value, values, setup.certKey)
        case None => Ending(t3, account, None)
        case Some(leaf) =>
          var (t4, result) := Conclude(env.world, t3, setup, leaf, values);
          Ending(t4, account, result)
  }

  // ---------------------------------------------------------------- the client

  class Client {
    const env: Env
    const setup: Setup
    var accountUrl: Option<string>
    var trace: Trace

    constructor (env: Env, setup: Setup)
      ensures this.env == env && this.setup == setup && accountUrl == None && trace == []
    {
      this.env, this.setup, accountUrl, trace := env, setup, None, [];
    }

    method Call(effect: Effect) returns (answer: Answer)
      modifies this`trace
      ensures trace == old(trace) + [effect] && answer == env.world(trace)
    {
      trace := trace + [effect];
      answer := env.world(trace);
    }

    /** The three loops of `issue` that build the challenge routes and check them. */
    method BuildRoutes(values: seq<Value>) returns (routes: Option<RouteMap>)
      ensures routes == Plan(setup, values)
    {
      hide ValidValue, KeyOfValue, ValueText, Compatible;
      if values == [] || !ValidValues(values) {
        return None;
      }
      var overrides: map<Key, Override> := map[];
      var list := setup.challengeMap;
      assert list[..0] == [];
      for k := 0 to |list|
        invariant Overrides(list[..k]) == Some(overrides)
      {
        assert list[..k + 1][..k] == list[..k];
        if !ValidValue(list[k].value) {
          OverridesFail(list, k + 1);
          return None;
        }
        overrides := overrides[KeyOfValue(list[k].value) := list[k]];
      }
      assert list[..|list|] == list;
      var effective: RouteMap := map[];
      assert values[..0] == [];
      for k := 0 to |values|
        invariant Effective(setup, overrides, values[..k]) == Some(effective)
      {
        assert values[..k + 1][..k] == values[..k];
        var route := RouteFor(setup, overrides, values[k]);
        if route.None? {
          EffectiveFails(setup, overrides, values, k + 1);
          return None;
        }
        effective := effective[KeyOfValue(values[k]) := route.value];
      }
      assert values[..|values|] == values;
      for k := 0 to |values|
        invariant forall i :: 0 <= i < k ==>
                    KeyOfValue(values[i]) in effective && Compatible(values[i], effective[KeyOfValue(values[i])].kind)
      {
        EffectiveHas(setup, overrides, values, k);
        if !Compatible(values[k], effective[KeyOfValue(values[k])].kind) {
          return None;
        }
      }
      return Some(effective);
    }

    /** `get_authorizations`. */
    method GetAuthorizations(urls: seq<string>) returns (authzs: Option<seq<Fetched>>)
      modifies this`trace
      ensures (trace, authzs) == FetchAll(env.world, old(trace), urls, [])
    {
      var list: seq<Fetched> := [];
      assert urls[0..] == urls;
      for k := 0 to |urls|
        invariant FetchAll(env.world, old(trace), urls, []) == FetchAll(env.world, trace, urls[k..], list)
      {
        assert urls[k..][1..] == urls[k + 1..];
        var answer := Call(Send(urls[k], EmptyBody));
        if !answer.AuthzIs? {
          return None;
        }
        list := list + [Fetched(urls[k], answer.authz)];
      }
      return Some(list);
    }

    /** The provisioning loop. */
    method SolveChallenges(authzs: seq<Fetched>, routes: RouteMap) returns (provisioned: seq<Prepared>, solved: bool)
      modifies this`trace
      ensures (trace, provisioned, solved) == Solve(env.world, old(trace), authzs, routes, [])
    {
      hide Choose;
      provisioned := [];
      assert authzs[0..] == authzs;
      for k := 0 to |authzs|
        invariant Solve(env.world, old(trace), authzs, routes, []) ==
                  Solve(env.world, trace, authzs[k..], routes, provisioned)
      {
        assert authzs[k..][1..] == authzs[k + 1..];
        var chosen := Choose(authzs[k].authz, routes);
        if chosen.None? {
          return provisioned, false;
        }
        var prepared := chosen.value.0;
        var answer := Call(Provision(prepared));
        if Fails(answer) {
          return provisioned, false;
        }
        provisioned := provisioned + [prepared];
        answer := Call(Send(chosen.value.1, ReadyBody));
        if Fails(answer) {
          return provisioned, false;
        }
      }
      return provisioned, true;
    }

    /** `poll_authorization`. */
    method PollAuthorization(url: string) returns (valid: bool)
      modifies this`trace
      ensures (trace, valid) == PollAuthz(env.world, old(trace), url, env.patience(old(trace), url, AuthzLoop))
      ensures WaitsForAuthz(env.world, old(trace), url, env.patience(old(trace), url, AuthzLoop), trace, valid)
    {
      hide WaitsForAuthz;
      AuthzPollExact(env.world, trace, url, env.patience(trace, url, AuthzLoop));
      var patience := env.patience(trace, url, AuthzLoop);
      while true
        invariant PollAuthz(env.world, old(trace), url, env.patience(old(trace), url, AuthzLoop)) ==
                  PollAuthz(env.world, trace, url, patience)
        decreases patience
      {
        var answer := Call(Send(url, EmptyBody));
        if !answer.AuthzIs? {
          return false;
        }
        match JudgeAuthz(answer.authz.status) {
          case Success => return true;
          case Failure => return false;
          case Waiting =>
        }
        if patience == 0 {
          return false;
        }
        patience := patience - 1;
      }
    }

    /** The loop of `poll_order` and `_poll_order_ready`. */
    method PollOrderUntil(url: string, loop: Loop, judge: OrderStatus -> Verdict) returns (order: Option<OrderView>)
      modifies this`trace
      ensures (trace, order) == PollOrder(env.world, old(trace), url, judge, env.patience(old(trace), url, loop))
    {
      var patience := env.patience(trace, url, loop);
      while true
        invariant PollOrder(env.world, old(trace), url, judge, env.patience(old(trace), url, loop))
                  == PollOrder(env.world, trace, url, judge, patience)
        decreases patience
      {
        var answer := Call(Send(url, EmptyBody));
        if !answer.OrderIs? {
          return None;
        }
        match judge(answer.order.status) {
          case Success => return Some(answer.order);
          case Failure => return None;
          case Waiting =>
        }
        if patience == 0 {
          return None;
        }
        patience := patience - 1;
      }
    }

    /** `poll_order`. */
    method PollOrderValid(url: string) returns (order: Option<OrderView>)
      modifies this`trace
      ensures (trace, order) ==
              PollOrder(env.world, old(trace), url, JudgeOrder, env.patience(old(trace), url, ValidLoop))
      ensures WaitsUntilValid(env.world, old(trace), url, env.patience(old(trace), url, ValidLoop), trace, order)
    {
      hide PollOrder, WaitsUntilValid;
      OrderPollExact(env.world, trace, url, env.patience(trace, url, ValidLoop));
      order := PollOrderUntil(url, ValidLoop, JudgeOrder);
    }

    /** `_poll_order_ready`. */
    method PollOrderReady(url: string) returns (order: Option<OrderView>)
      modifies this`trace
      ensures (trace, order) ==
              PollOrder(env.world, old(trace), url, JudgeReady, env.patience(old(trace), url, ReadyLoop))
      ensures WaitsWhilePending(env.world, old(trace), url, env.patience(old(trace), url, ReadyLoop), trace, order)
    {
      hide PollOrder, WaitsWhilePending;
      ReadyPollExact(env.world, trace, url, env.patience(trace, url, ReadyLoop));
      order := PollOrderUntil(url, ReadyLoop, JudgeReady);
    }

    /** Steps 4 to 8 of `issue`. */
    method ObtainChain(url: string, authzs: seq<Fetched>, values: seq<Value>)
      returns (chain: Option<Option<seq<Certificate>>>)
      modifies this`trace
      ensures var (polled, valid) := PollAuthzs(env, old(trace), authzs);
              (trace, chain) == if valid then Obtain(env, polled, url, GeneratedCsr(setup.certKey, values))
                else (polled, None)
    {
      hide JudgeOrder, JudgeReady, PollAuthz, PollOrder, WaitsForAuthz, WaitsUntilValid, WaitsWhilePending,
        GeneratedCsr, SansReadable, SanValues, ValidValues, ValueText;
      assert authzs[0..] == authzs;
      for k := 0 to |authzs|
        invariant PollAuthzs(env, old(trace), authzs) == PollAuthzs(env, trace, authzs[k..])
      {
        assert authzs[k..][1..] == authzs[k + 1..];
        var valid := PollAuthorization(authzs[k].url);
        if !valid {
          return None;
        }
      }
      var order := PollOrderReady(url);
      if order.None? {
        return None;
      }
      var csr := GenerateCsr(setup.certKey, values);
      if csr.None? {
        return None;
      }
      if order.value.status == OrderReady {
        var answer := Call(Send(order.value.finalize, CsrBody(csr.value)));
        if !answer.OrderIs? {
          return None;
        }
        order := Some(answer.order);
      }
      if order.value.status != OrderValid {
        order := PollOrderValid(url);
        if order.None? {
          return None;
        }
      }
      if order.value.certificate.None? {
        return None;
      }
      var downloaded := Call(Send(order.value.certificate.value, EmptyBody));
      return if downloaded.ChainIs? then Some(downloaded.certificates) else None;
    }

    /** The `finally` block. */
    method DeprovisionAll(provisioned: seq<Prepared>) returns (cleaned: bool)
      modifies this`trace
      ensures (trace, cleaned) == CleanUp(env.world, old(trace), provisioned)
    {
      assert provisioned[0..] == provisioned;
      for k := 0 to |provisioned|
        invariant CleanUp(env.world, old(trace), provisioned) == CleanUp(env.world, trace, provisioned[k..])
      {
        assert provisioned[k..][1..] == provisioned[k + 1..];
        var answer := Call(Deprovision(provisioned[k]));
        if answer.Cancelled? {
          return false;
        }
      }
      return true;
    }

    /** Steps 9 to 11 of `issue`. */
    method KeepAndReport(leaf: Certificate, values: seq<Value>) returns (result: Option<Certificate>)
      modifies this`trace
      ensures (trace, result) == Conclude(env.world, old(trace), setup, leaf, values)
    {
      hide DnsTexts;
      var answer := Answer.Done;
      if setup.hasStore {
        answer := Call(SaveCert(leaf, Texts(values)));
        if Fails(answer) {
          return None;
        }
      }
      if setup.hasLimiter {
        answer := Call(RecordIssuance(DnsTexts(values)));
        if Fails(answer) {
          return None;
        }
      }
      if setup.hasEvents {
        answer := Call(EmitIssued(Texts(values)));
        if Fails(answer) {
          return None;
        }
      }
      return Some(leaf);
    }

    /** `issue`. */
    method IssueCertificate(values: seq<Value>) returns (leaf: Option<Certificate>)
      modifies this
      ensures Ending(trace, accountUrl, leaf) == IssueRun(env, old(trace), setup, old(accountUrl), values)
    {
      hide Plan, FetchAll, Solve, PollAuthzs, Obtain, CleanUp, AcceptLeaf, Conclude, DnsTexts, ValidValues,
        IdentifiersOfValues, GeneratedCsr, ValueText;
      PlannedNotEmpty(setup, values);
      var routes := BuildRoutes(values);
      if routes.None? {
        return None;
      }
      if setup.hasLimiter {
        var allowed := Call(LimitCheck(DnsTexts(values)));
        if allowed.Blocked? || Fails(allowed) {
          return None;
        }
      }
      if accountUrl.None? {
        var account := Call(Send(setup.newAccount, AccountBody));
        if !account.AccountAt? {
          return None;
        }
        accountUrl := Some(account.url);
      }
      var placed := Call(Send(setup.newOrder, OrderBody(IdentifiersOfValues(values))));
      if !placed.OrderAt? {
        return None;
      }
      var authzs := GetAuthorizations(placed.order.authorizations);
      if authzs.None? {
        return None;
      }
      var provisioned, solved := SolveChallenges(authzs.value, routes.value);
      var chain: Option<Option<seq<Certificate>>> := None;
      if solved {
        chain := ObtainChain(placed.url, authzs.value, values);
      }
      var cleaned := DeprovisionAll(provisioned);
      if chain.None? || !cleaned {
        return None;
      }
      var accepted := AcceptLeaf(chain.value, values, setup.certKey);
      if accepted.None? {
        return None;
      }
      leaf := KeepAndReport(accepted.value, values);
    }
  }

  lemma PlannedNotEmpty(setup: Setup, values: seq<Value>)
    ensures Plan(setup, values).Some? ==> values != [] && ValidValues(values)
  {
  }

  lemma {:induction false} OverridesFail(list: seq<Override>, k: nat)
    requires k <= |list| && Overrides(list[..k]).None?
    ensures Overrides(list).None?
    decreases |list|
  {
    if k < |list| {
      assert list[..|list| - 1][..k] == list[..k];
      OverridesFail(list[..|list| - 1], k);
    } else {
      assert list[..k] == list;
    }
  }

  lemma {:induction false} EffectiveFails(setup: Setup, overrides: map<Key, Override>, values: seq<Value>, k: nat)
    requires k <= |values| && Effective(setup, overrides, values[..k]).None?
    ensures Effective(setup, overrides, values).None?
    decreases |values|
  {
    hide RouteFor;
    if k < |values| {
      assert values[..|values| - 1][..k] == values[..k];
      EffectiveFails(setup, overrides, values[..|values| - 1], k);
    } else {
      assert values[..k] == values;
    }
  }

  /** Every requested identifier has a route. */
  lemma {:induction false} EffectiveHas(setup: Setup, overrides: map<Key, Override>, values: seq<Value>, k: nat)
    requires k < |values| && Effective(setup, overrides, values).Some?
    ensures KeyOfValue(values[k]) in Effective(setup, overrides, values).value
  {
    hide RouteFor, KeyOfValue;
    if k < |values| - 1 { EffectiveHas(setup, overrides, values[..|values| - 1], k); }
  }
}
