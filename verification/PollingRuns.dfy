/** The polling loops of `issue` are the deadline-bounded loops of the clock, which bounds the
    requests of a whole `issue`. */
module PollingRuns {
  import opened Wrappers
  import opened CsrBinding
  import opened Identifiers
  import opened Acme
  import opened Polling
  import opened IssueFlow
  import opened IssueSafety
  import opened EndToEnd
  import Renewal

  // ---------------------------------------------------------------- the loops are the same

  /** After n more requests for this resource. */
  function Asked(t: Trace, url: string, n: nat): Trace {
    if n == 0 then t else Asked(t, url, n - 1) + [Send(url, EmptyBody)]
  }

  function AuthzAnswer(answer: Answer): Option<AuthzStatus> {
    if answer.AuthzIs? then Some(answer.authz.status) else None
  }

  function OrderAnswer(answer: Answer): Option<OrderStatus> {
    if answer.OrderIs? then Some(answer.order.status) else None
  }

  /** The turns of a loop that polls this resource get the world's answers. */
  ghost predicate TurnsAre<S(!new)>(world: World, t: Trace, url: string, read: Answer -> Option<S>,
                                        turns: nat -> Turn<S>)
  {
    forall i: nat :: turns(i).answer == read(world(Asked(t, url, i + 1)))
  }

  /** The timed loop that ends with request number p (from 0) is the loop of `issue` with
      patience p: the same requests and the same outcome. */
  lemma PollAuthzIsPoll(world: World, t: Trace, url: string, turns: nat -> Turn<AuthzStatus>, timeout: real,
                        interval: real, p: nat)
    requires TurnsAre(world, t, url, AuthzAnswer, turns) && StopsFirst(turns, JudgeAuthz, timeout, interval, p)
    ensures PollAuthz(world, t, url, p) ==
            (Asked(t, url, p + 1), turns(p).answer.Some? && JudgeAuthz(turns(p).answer.value) == Success)
  {
    PollAuthzFrom(world, t, url, turns, timeout, interval, p, 0);
  }

  lemma {:induction false} PollAuthzFrom(world: World, t: Trace, url: string, turns: nat -> Turn<AuthzStatus>,
                                         timeout: real, interval: real, p: nat, k: nat)
    requires TurnsAre(world, t, url, AuthzAnswer, turns) && StopsFirst(turns, JudgeAuthz, timeout, interval, p)
             && k <= p
    ensures PollAuthz(world, Asked(t, url, k), url, p - k) ==
            (Asked(t, url, p + 1), turns(p).answer.Some? && JudgeAuthz(turns(p).answer.value) == Success)
    decreases p - k
  {
    hide StartOf, JudgeAuthz;
    assert turns(k).answer == AuthzAnswer(world(Asked(t, url, k + 1)));
    if k < p {
      assert !Stops(turns, JudgeAuthz, timeout, interval, k);
      PollAuthzFrom(world, t, url, turns, timeout, interval, p, k + 1);
    }
  }

  lemma PollOrderIsPoll(world: World, t: Trace, url: string, judge: OrderStatus -> Verdict,
                        turns: nat -> Turn<OrderStatus>, timeout: real, interval: real, p: nat)
    requires TurnsAre(world, t, url, OrderAnswer, turns) && StopsFirst(turns, judge, timeout, interval, p)
    ensures var last := world(Asked(t, url, p + 1));
            PollOrder(world, t, url, judge, p) ==
            (Asked(t, url, p + 1),
             if last.OrderIs? && judge(last.order.status) == Success then Some(last.order) else None)
  {
    PollOrderFrom(world, t, url, judge, turns, timeout, interval, p, 0);
  }

  lemma {:induction false} PollOrderFrom(world: World, t: Trace, url: string, judge: OrderStatus -> Verdict,
                                         turns: nat -> Turn<OrderStatus>, timeout: real, interval: real, p: nat, k: nat)
    requires TurnsAre(world, t, url, OrderAnswer, turns) && StopsFirst(turns, judge, timeout, interval, p) && k <= p
    ensures var last := world(Asked(t, url, p + 1));
            PollOrder(world, Asked(t, url, k), url, judge, p - k) ==
            (Asked(t, url, p + 1),
             if last.OrderIs? && judge(last.order.status) == Success then Some(last.order) else None)
    decreases p - k
  {
    hide StartOf;
    assert turns(k).answer == OrderAnswer(world(Asked(t, url, k + 1)));
    if k < p {
      assert !Stops(turns, judge, timeout, interval, k);
      PollOrderFrom(world, t, url, judge, turns, timeout, interval, p, k + 1);
    }
  }

  // ---------------------------------------------------------------- how many requests

  lemma {:induction false} OnlySendsCounted(t: Trace, after: Trace)
    requires OnlySends(t, after)
    ensures |Sends(after)| == |Sends(t)| + (|after| - |t|)
    decreases |after|
  {
    if |after| > |t| { OnlySendsCounted(t, after[..|after| - 1]); } else { assert after == t; }
  }

  lemma {:induction false} FetchAllCounted(world: World, t: Trace, urls: seq<string>, sofar: seq<Fetched>)
    ensures |FetchAll(world, t, urls, sofar).0| <= |t| + |urls|
    ensures var r := FetchAll(world, t, urls, sofar).1; r.Some? ==> |r.value| == |sofar| + |urls|
    decreases |urls|
  {
    if urls != [] {
      var sent := t + [Send(urls[0], EmptyBody)];
      if world(sent).AuthzIs? {
        FetchAllCounted(world, sent, urls[1..], sofar + [Fetched(urls[0], world(sent).authz)]);
      }
    }
  }

  lemma {:induction false} SolveCounted(world: World, t: Trace, authzs: seq<Fetched>, routes: RouteMap,
                                        open: seq<Prepared>)
    ensures |Sends(Solve(world, t, authzs, routes, open).0)| <= |Sends(t)| + |authzs|
    decreases |authzs|
  {
    hide Choose, Sends;
    if authzs != [] && Choose(authzs[0].authz, routes).Some? {
      var (prepared, url) := Choose(authzs[0].authz, routes).value;
      var called := t + [Provision(prepared)];
      SendsOne(t, Provision(prepared));
      SendsOne(called, Send(url, ReadyBody));
      SolveCounted(world, called + [Send(url, ReadyBody)], authzs[1..], routes, open + [prepared]);
    }
  }

  lemma {:induction false} PollAuthzCounted(world: World, t: Trace, url: string, patience: nat)
    ensures |PollAuthz(world, t, url, patience).0| <= |t| + patience + 1
    decreases patience
  {
    hide JudgeAuthz;
    if patience > 0 { PollAuthzCounted(world, t + [Send(url, EmptyBody)], url, patience - 1); }
  }

  lemma {:induction false} PollOrderCounted(world: World, t: Trace, url: string, judge: OrderStatus -> Verdict,
                                            patience: nat)
    ensures |PollOrder(world, t, url, judge, patience).0| <= |t| + patience + 1
    decreases patience
  {
    if patience > 0 { PollOrderCounted(world, t + [Send(url, EmptyBody)], url, judge, patience - 1); }
  }

  /** No polling loop makes more than m requests. */
  ghost predicate Polls(env: Env, m: nat) {
    forall t, url, loop :: env.patience(t, url, loop) < m
  }

  lemma {:induction false} PollAuthzsCounted(env: Env, t: Trace, authzs: seq<Fetched>, m: nat)
    requires Polls(env, m)
    ensures |PollAuthzs(env, t, authzs).0| <= |t| + |authzs| * m
    decreases |authzs|
  {
    hide PollAuthz;
    if authzs != [] {
      PollAuthzCounted(env.world, t, authzs[0].url, env.patience(t, authzs[0].url, AuthzLoop));
      var polled := PollAuthz(env.world, t, authzs[0].url, env.patience(t, authzs[0].url, AuthzLoop)).0;
      PollAuthzsCounted(env, polled, authzs[1..], m);
      assert |authzs| * m == |authzs[1..]| * m + m;
    }
  }

  lemma ObtainCounted(env: Env, t: Trace, url: string, csr: Option<Csr>, m: nat)
    requires Polls(env, m)
    ensures |Obtain(env, t, url, csr).0| <= |t| + 2 * m + 2
  {
    hide PollOrder;
    PollOrderCounted(env.world, t, url, JudgeReady, env.patience(t, url, ReadyLoop));
    var (t1, ready) := PollOrder(env.world, t, url, JudgeReady, env.patience(t, url, ReadyLoop));
    if ready.Some? && csr.Some? {
      var t2 := FinalizeOrder(env.world, t1, ready.value, csr.value).0;
      PollOrderCounted(env.world, t2, url, JudgeOrder, env.patience(t2, url, ValidLoop));
    }
  }

  lemma AttemptCounted(env: Env, t: Trace, url: string, authzs: seq<Fetched>, routes: RouteMap, csr: Option<Csr>,
                       m: nat)
    requires Polls(env, m)
    ensures |Sends(Attempt(env, t, url, authzs, routes, csr).0)| <= |Sends(t)| + |authzs| + |authzs| * m + 2 * m + 2
  {
    hide Solve, PollAuthzs, Obtain, Sends, OnlySends, Polls;
    SolveCounted(env.world, t, authzs, routes, []);
    var (t1, provisioned, solved) := Solve(env.world, t, authzs, routes, []);
    var (t2, valid) := PollAuthzs(env, t1, authzs);
    PollAuthzsCounted(env, t1, authzs, m);
    PollAuthzsSends(env, t1, authzs);
    OnlySendsCounted(t1, t2);
    ObtainCounted(env, t2, url, csr, m);
    ObtainSends(env, t2, url, csr);
    OnlySendsCounted(t2, Obtain(env, t2, url, csr).0);
  }

  lemma {:induction false} CleanUpQuiet(world: World, t: Trace, open: seq<Prepared>)
    ensures |Sends(CleanUp(world, t, open).0)| == |Sends(t)|
    decreases |open|
  {
    hide Sends;
    if open != [] {
      SendsOne(t, Deprovision(open[0]));
      CleanUpQuiet(world, t + [Deprovision(open[0])], open[1..]);
    }
  }

  lemma ConcludeQuiet(world: World, t: Trace, setup: Setup, leaf: Certificate, values: seq<Value>)
    ensures |Sends(Conclude(world, t, setup, leaf, values).0)| == |Sends(t)|
  {
    hide Sends, DnsTexts;
    var t1 := Optionally(t, setup.hasStore, SaveCert(leaf, Renewal.Texts(values)));
    var t2 := Optionally(t1, setup.hasLimiter, RecordIssuance(DnsTexts(values)));
    SendsOne(t, SaveCert(leaf, Renewal.Texts(values)));
    SendsOne(t1, RecordIssuance(DnsTexts(values)));
    SendsOne(t2, EmitIssued(Renewal.Texts(values)));
  }

  /** The requests of the part after the order was placed with n authorizations. */
  function MostRequests(n: nat, m: nat): nat {
    2 * n + n * m + 2 * m + 2
  }

  lemma FulfilCounted(env: Env, setup: Setup, account: Option<string>, values: seq<Value>, routes: RouteMap, t: Trace,
                      url: string, order: OrderView, m: nat)
    requires values != [] && Polls(env, m)
    ensures |Sends(Fulfil(env, setup, account, values, routes, t, url, order).trace)|
            <= |Sends(t)| + MostRequests(|order.authorizations|, m)
  {
    hide FetchAll, Attempt, CleanUp, AcceptLeaf, Conclude, Sends, OnlySends, Polls, GeneratedCsr;
    FetchAllCounted(env.world, t, order.authorizations, []);
    FetchAllSends(env.world, t, order.authorizations, []);
    var (t1, authzs) := FetchAll(env.world, t, order.authorizations, []);
    OnlySendsCounted(t, t1);
    if authzs.Some? {
      var csr := GeneratedCsr(setup.certKey, values);
      AttemptCounted(env, t1, url, authzs.value, routes, csr, m);
      var (t2, provisioned, chain) := Attempt(env, t1, url, authzs.value, routes, csr);
      CleanUpQuiet(env.world, t2, provisioned);
      var (t3, cleaned) := CleanUp(env.world, t2, provisioned);
      if chain.Some? && AcceptLeaf(chain.value, values, setup.certKey).Some? {
        ConcludeQuiet(env.world, t3, setup, AcceptLeaf(chain.value, values, setup.certKey).value, values);
      }
    }
  }

  /** The server names at most n authorizations in an order. */
  ghost predicate Authorizes(world: World, n: nat) {
    forall t :: world(t).OrderAt? ==> |world(t).order.authorizations| <= n
  }

  lemma MostRequestsGrow(k: nat, n: nat, m: nat)
    requires k <= n
    ensures MostRequests(k, m) <= MostRequests(n, m)
  {
    assert n * m - k * m == (n - k) * m;
  }

  lemma OpenAccountCounted(world: World, setup: Setup, accountUrl: Option<string>, values: seq<Value>)
    ensures |Sends(OpenAccount(world, [], setup, accountUrl, values).0)| <= 1
  {
    hide DnsTexts, Sends;
    var checked := Optionally([], setup.hasLimiter, LimitCheck(DnsTexts(values)));
    SendsOne([], LimitCheck(DnsTexts(values)));
    SendsOne(checked, Send(setup.newAccount, AccountBody));
    NoSends();
  }

  lemma NoSends()
    ensures Sends([]) == []
  {
  }

  /** Whatever the server answers, `issue` makes a bounded number of requests. */
  lemma IssueCounted(env: Env, setup: Setup, accountUrl: Option<string>, values: seq<Value>, n: nat, m: nat)
    requires Polls(env, m) && Authorizes(env.world, n)
    ensures |Sends(IssueRun(env, [], setup, accountUrl, values).trace)| <= 2 + MostRequests(n, m)
  {
    hide Plan, OpenAccount, Fulfil, IdentifiersOfValues, Sends, Polls, MostRequests;
    PlannedNotEmpty(setup, values);
    NoSends();
    if Plan(setup, values).Some? {
      OpenAccountCounted(env.world, setup, accountUrl, values);
      var (t1, account) := OpenAccount(env.world, [], setup, accountUrl, values);
      var order := Send(setup.newOrder, OrderBody(IdentifiersOfValues(values)));
      SendsOne(t1, order);
      if env.world(t1 + [order]).OrderAt? {
        var answer := env.world(t1 + [order]);
        FulfilCounted(env, setup, account, values, Plan(setup, values).value, t1 + [order], answer.url,
                      answer.order, m);
        MostRequestsGrow(|answer.order.authorizations|, n, m);
      }
    }
  }

  /** This is the patience of the timed loop that polls this resource from here on, with the
      world's answers, every turn taking at least this time. */
  ghost predicate TimedAs<S(!new)>(world: World, t: Trace, url: string, read: Answer -> Option<S>, judge: S -> Verdict,
                                   timeout: real, interval: real, least: real, patience: nat) {
    exists turns: nat -> Turn<S> ::
      && TurnsAre(world, t, url, read, turns) && TakesTime(turns, interval, least)
      && StopsFirst(turns, judge, timeout, interval, patience)
  }

  ghost predicate LoopTimed(env: Env, t: Trace, url: string, loop: Loop, timeout: real, interval: real, least: real) {
    var p := env.patience(t, url, loop);
    match loop
    case AuthzLoop => TimedAs(env.world, t, url, AuthzAnswer, JudgeAuthz, timeout, interval, least, p)
    case ReadyLoop => TimedAs(env.world, t, url, OrderAnswer, JudgeReady, timeout, interval, least, p)
    case ValidLoop => TimedAs(env.world, t, url, OrderAnswer, JudgeOrder, timeout, interval, least, p)
  }

  /** The loops of `issue` are timed loops on this world, whatever they poll and when. */
  ghost predicate Timed(env: Env, timeout: real, interval: real, least: real) {
    forall t, url, loop: Loop :: LoopTimed(env, t, url, loop, timeout, interval, least)
  }

  lemma TimedWithin<S(!new)>(world: World, t: Trace, url: string, read: Answer -> Option<S>, judge: S -> Verdict,
                             timeout: real, interval: real, least: real, patience: nat)
    requires TimedAs(world, t, url, read, judge, timeout, interval, least, patience) && least > 0.0
    ensures patience < MostPolls(timeout, least)
  {
    hide StopsFirst, TakesTime, TurnsAre;
    var turns: nat -> Turn<S> :|
      && TurnsAre(world, t, url, read, turns) && TakesTime(turns, interval, least)
      && StopsFirst(turns, judge, timeout, interval, patience);
    FirstWithin(turns, judge, timeout, interval, least, patience);
  }

  /** With a server that names at most n authorizations, and polling loops whose turns take at
      least `least`, `issue` makes at most 2n + 4 requests and n + 2 polling loops, each of at
      most `MostPolls` requests. */
  lemma IssueInTime(env: Env, setup: Setup, accountUrl: Option<string>, values: seq<Value>, n: nat, timeout: real,
                    interval: real, least: real)
    requires least > 0.0 && Timed(env, timeout, interval, least) && Authorizes(env.world, n)
    ensures |Sends(IssueRun(env, [], setup, accountUrl, values).trace)|
            <= 2 * n + 4 + (n + 2) * MostPolls(timeout, least)
  {
    hide IssueRun, Sends, MostPolls, TimedAs, Authorizes;
    var m := MostPolls(timeout, least);
    forall t, url, loop: Loop ensures env.patience(t, url, loop) < m {
      var p := env.patience(t, url, loop);
      assert LoopTimed(env, t, url, loop, timeout, interval, least);
      match loop
      case AuthzLoop => TimedWithin(env.world, t, url, AuthzAnswer, JudgeAuthz, timeout, interval, least, p);
      case ReadyLoop => TimedWithin(env.world, t, url, OrderAnswer, JudgeReady, timeout, interval, least, p);
      case ValidLoop => TimedWithin(env.world, t, url, OrderAnswer, JudgeOrder, timeout, interval, least, p);
    }
    IssueCounted(env, setup, accountUrl, values, n, m);
    assert (n + 2) * m == n * m + 2 * m;
  }
}
