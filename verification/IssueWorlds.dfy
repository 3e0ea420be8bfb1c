/** How the outcome of `issue` depends on the outside world: through the answers along its own
    history, every one of which must be given for it to succeed. */
module IssueWorlds {
  import opened Wrappers
  import opened Identifiers
  import opened CsrBinding
  import opened Acme
  import opened Polling
  import opened Renewal
  import opened IssueFlow
  import opened IssueSafety

  // ---------------------------------------------------------------- histories

  /** Every request beyond this point came back. */
  ghost predicate Answered(world: World, t: Trace, from: nat) {
    forall k: nat :: from < k <= |t| && t[k - 1].Send? ==> !Fails(world(t[..k]))
  }

  /** The two worlds answer alike along this history. */
  ghost predicate Agree(one: World, other: World, t: Trace, from: nat) {
    forall k: nat :: from < k <= |t| ==> one(t[..k]) == other(t[..k])
  }

  lemma AnsweredNone(world: World, t: Trace)
    ensures Answered(world, t, |t|)
  {
  }

  lemma AnsweredJoin(world: World, middle: Trace, t: Trace, from: nat)
    requires Answered(world, middle, from) && middle <= t && Answered(world, t, |middle|)
    ensures Answered(world, t, from)
  {
    forall k: nat | from < k <= |t| && t[k - 1].Send? ensures !Fails(world(t[..k])) {
      if k <= |middle| { assert t[..k] == middle[..k]; }
    }
  }

  lemma AnsweredOne(world: World, t: Trace, effect: Effect)
    requires effect.Send? ==> !Fails(world(t + [effect]))
    ensures Answered(world, t + [effect], |t|)
  {
    assert (t + [effect])[..|t| + 1] == t + [effect];
  }

  lemma AgreePart(one: World, other: World, part: Trace, t: Trace, from: nat, later: nat)
    requires Agree(one, other, t, from) && part <= t && from <= later
    ensures Agree(one, other, part, later)
  {
    forall k: nat | later < k <= |part| ensures one(part[..k]) == other(part[..k]) {
      assert part[..k] == t[..k];
    }
  }

  lemma AgreeAt(one: World, other: World, part: Trace, t: Trace, from: nat)
    requires Agree(one, other, t, from) && part <= t && from < |part|
    ensures one(part) == other(part)
  {
    assert t[..|part|] == part;
  }

  // ---------------------------------------------------------------- success needs every answer

  lemma {:induction false} FetchAllAnswered(world: World, t: Trace, urls: seq<string>, sofar: seq<Fetched>)
    ensures FetchAll(world, t, urls, sofar).1.Some? ==> Answered(world, FetchAll(world, t, urls, sofar).0, |t|)
    decreases |urls|
  {
    hide Answered;
    if urls == [] {
      AnsweredNone(world, t);
    } else {
      var sent := t + [Send(urls[0], EmptyBody)];
      if world(sent).AuthzIs? {
        var more := sofar + [Fetched(urls[0], world(sent).authz)];
        FetchAllAnswered(world, sent, urls[1..], more);
        FetchAllSends(world, sent, urls[1..], more);
        AnsweredOne(world, t, Send(urls[0], EmptyBody));
        if FetchAll(world, t, urls, sofar).1.Some? {
          AnsweredJoin(world, sent, FetchAll(world, t, urls, sofar).0, |t|);
        }
      }
    }
  }

  lemma {:induction false} SolveAnswered(world: World, t: Trace, authzs: seq<Fetched>, routes: RouteMap,
                                         open: seq<Prepared>)
    ensures Solve(world, t, authzs, routes, open).2 ==> Answered(world, Solve(world, t, authzs, routes, open).0, |t|)
    decreases |authzs|
  {
    hide Answered, Choose;
    if authzs == [] {
      AnsweredNone(world, t);
    } else if Choose(authzs[0].authz, routes).Some? {
      var (prepared, url) := Choose(authzs[0].authz, routes).value;
      var called := t + [Provision(prepared)];
      var sent := called + [Send(url, ReadyBody)];
      if !Fails(world(called)) && !Fails(world(sent)) {
        SolveAnswered(world, sent, authzs[1..], routes, open + [prepared]);
        SolveGrows(world, sent, authzs[1..], routes, open + [prepared]);
        AnsweredOne(world, t, Provision(prepared));
        AnsweredOne(world, called, Send(url, ReadyBody));
        AnsweredJoin(world, called, sent, |t|);
        if Solve(world, t, authzs, routes, open).2 {
          AnsweredJoin(world, sent, Solve(world, t, authzs, routes, open).0, |t|);
        }
      }
    }
  }

  lemma {:induction false} PollAuthzAnswered(world: World, t: Trace, url: string, patience: nat)
    ensures PollAuthz(world, t, url, patience).1 ==> Answered(world, PollAuthz(world, t, url, patience).0, |t|)
    decreases patience
  {
    hide Answered, JudgeAuthz;
    var sent := t + [Send(url, EmptyBody)];
    if world(sent).AuthzIs? {
      AnsweredOne(world, t, Send(url, EmptyBody));
      if JudgeAuthz(world(sent).authz.status) == Waiting && patience > 0 {
        PollAuthzAnswered(world, sent, url, patience - 1);
        PollAuthzSends(world, sent, url, patience - 1);
        if PollAuthz(world, t, url, patience).1 {
          AnsweredJoin(world, sent, PollAuthz(world, t, url, patience).0, |t|);
        }
      }
    }
  }

  lemma {:induction false} PollAuthzsAnswered(env: Env, t: Trace, authzs: seq<Fetched>)
    ensures PollAuthzs(env, t, authzs).1 ==> Answered(env.world, PollAuthzs(env, t, authzs).0, |t|)
    decreases |authzs|
  {
    hide Answered, PollAuthz;
    if authzs == [] {
      AnsweredNone(env.world, t);
    } else {
      var (polled, ok) := PollAuthz(env.world, t, authzs[0].url, env.patience(t, authzs[0].url, AuthzLoop));
      PollAuthzAnswered(env.world, t, authzs[0].url, env.patience(t, authzs[0].url, AuthzLoop));
      if ok {
        PollAuthzsAnswered(env, polled, authzs[1..]);
        PollAuthzsSends(env, polled, authzs[1..]);
        if PollAuthzs(env, t, authzs).1 { AnsweredJoin(env.world, polled, PollAuthzs(env, t, authzs).0, |t|); }
      }
    }
  }

  lemma {:induction false} PollOrderAnswered(world: World, t: Trace, url: string, judge: OrderStatus -> Verdict,
                                             patience: nat)
    ensures PollOrder(world, t, url, judge, patience).1.Some? ==>
            Answered(world, PollOrder(world, t, url, judge, patience).0, |t|)
    decreases patience
  {
    hide Answered;
    var sent := t + [Send(url, EmptyBody)];
    if world(sent).OrderIs? {
      AnsweredOne(world, t, Send(url, EmptyBody));
      if judge(world(sent).order.status) == Waiting && patience > 0 {
        PollOrderAnswered(world, sent, url, judge, patience - 1);
        PollOrderSends(world, sent, url, judge, patience - 1);
        if PollOrder(world, t, url, judge, patience).1.Some? {
          AnsweredJoin(world, sent, PollOrder(world, t, url, judge, patience).0, |t|);
        }
      }
    }
  }

  lemma ObtainAnswered(env: Env, t: Trace, url: string, csr: Option<Csr>)
    ensures Obtain(env, t, url, csr).1.Some? ==> Answered(env.world, Obtain(env, t, url, csr).0, |t|)
  {
    hide Answered, PollOrder;
    if Obtain(env, t, url, csr).1.Some? {
      var (t1, ready) := PollOrder(env.world, t, url, JudgeReady, env.patience(t, url, ReadyLoop));
      PollOrderAnswered(env.world, t, url, JudgeReady, env.patience(t, url, ReadyLoop));
      var (t2, finalized) := FinalizeOrder(env.world, t1, ready.value, csr.value);
      AnsweredNone(env.world, t1);
      if ready.value.status == OrderReady {
        AnsweredOne(env.world, t1, Send(ready.value.finalize, CsrBody(csr.value)));
      }
      AnsweredJoin(env.world, t1, t2, |t|);
      var (t3, valid) := AwaitValid(env, t2, finalized.value, url);
      AnsweredNone(env.world, t2);
      PollOrderAnswered(env.world, t2, url, JudgeOrder, env.patience(t2, url, ValidLoop));
      PollOrderSends(env.world, t2, url, JudgeOrder, env.patience(t2, url, ValidLoop));
      AnsweredJoin(env.world, t2, t3, |t|);
      var t4 := Download(env.world, t3, valid.value).0;
      AnsweredOne(env.world, t3, Send(valid.value.certificate.value, EmptyBody));
      AnsweredJoin(env.world, t3, t4, |t|);
    }
  }

  lemma AttemptAnswered(env: Env, t: Trace, url: string, authzs: seq<Fetched>, routes: RouteMap, csr: Option<Csr>)
    ensures Attempt(env, t, url, authzs, routes, csr).2.Some? ==>
            Answered(env.world, Attempt(env, t, url, authzs, routes, csr).0, |t|)
  {
    hide Answered, Solve, PollAuthzs, Obtain;
    if Attempt(env, t, url, authzs, routes, csr).2.Some? {
      var t1 := Solve(env.world, t, authzs, routes, []).0;
      var t2 := PollAuthzs(env, t1, authzs).0;
      var t3 := Obtain(env, t2, url, csr).0;
      SolveAnswered(env.world, t, authzs, routes, []);
      PollAuthzsAnswered(env, t1, authzs);
      PollAuthzsSends(env, t1, authzs);
      AnsweredJoin(env.world, t1, t2, |t|);
      ObtainAnswered(env, t2, url, csr);
      ObtainSends(env, t2, url, csr);
      AnsweredJoin(env.world, t2, t3, |t|);
    }
  }

  lemma {:induction false} CleanUpAnswered(world: World, t: Trace, open: seq<Prepared>)
    ensures Answered(world, CleanUp(world, t, open).0, |t|)
    decreases |open|
  {
    hide Answered;
    if open == [] {
      AnsweredNone(world, t);
    } else {
      var after := t + [Deprovision(open[0])];
      AnsweredOne(world, t, Deprovision(open[0]));
      if !world(after).Cancelled? {
        CleanUpAnswered(world, after, open[1..]);
        CleanUpGrows(world, after, open[1..]);
        AnsweredJoin(world, after, CleanUp(world, t, open).0, |t|);
      }
    }
  }

  lemma ConcludeAnswered(world: World, t: Trace, setup: Setup, leaf: Certificate, values: seq<Value>)
    ensures Answered(world, Conclude(world, t, setup, leaf, values).0, |t|)
  {
    hide DnsTexts;
  }

  lemma OpenAccountAnswered(world: World, t: Trace, setup: Setup, accountUrl: Option<string>, values: seq<Value>)
    ensures OpenAccount(world, t, setup, accountUrl, values).1.Some? ==>
              Answered(world, OpenAccount(world, t, setup, accountUrl, values).0, |t|)
  {
    hide DnsTexts, Answered;
    var check := LimitCheck(DnsTexts(values));
    var checked := Optionally(t, setup.hasLimiter, check);
    AnsweredNone(world, t);
    AnsweredOne(world, t, check);
    if OpenAccount(world, t, setup, accountUrl, values).1.Some? && accountUrl.None? {
      AnsweredOne(world, checked, Send(setup.newAccount, AccountBody));
      AnsweredJoin(world, checked, checked + [Send(setup.newAccount, AccountBody)], |t|);
    }
  }

  lemma FulfilAnswered(env: Env, setup: Setup, account: Option<string>, values: seq<Value>, routes: RouteMap, t: Trace,
                       url: string, order: OrderView)
    requires values != []
    ensures var ending := Fulfil(env, setup, account, values, routes, t, url, order);
            ending.leaf.Some? ==> Answered(env.world, ending.trace, |t|)
  {
    hide Answered, FetchAll, Attempt, CleanUp, AcceptLeaf, Conclude, GeneratedCsr;
    var ending := Fulfil(env, setup, account, values, routes, t, url, order);
    if ending.leaf.Some? {
      var (t1, authzs) := FetchAll(env.world, t, order.authorizations, []);
      var csr := GeneratedCsr(setup.certKey, values);
      var (t2, provisioned, chain) := Attempt(env, t1, url, authzs.value, routes, csr);
      var t3 := CleanUp(env.world, t2, provisioned).0;
      var leaf := AcceptLeaf(chain.value, values, setup.certKey).value;
      FetchAllAnswered(env.world, t, order.authorizations, []);
      AttemptAnswered(env, t1, url, authzs.value, routes, csr);
      AttemptGrows(env, t1, url, authzs.value, routes, csr);
      AnsweredJoin(env.world, t1, t2, |t|);
      CleanUpAnswered(env.world, t2, provisioned);
      CleanUpGrows(env.world, t2, provisioned);
      AnsweredJoin(env.world, t2, t3, |t|);
      ConcludeAnswered(env.world, t3, setup, leaf, values);
      ConcludeKeeps(env.world, t3, setup, leaf, values);
      AnsweredJoin(env.world, t3, ending.trace, |t|);
    }
  }

  /** A successful `issue` had every request answered. */
  lemma SuccessAnswered(env: Env, t: Trace, setup: Setup, accountUrl: Option<string>, values: seq<Value>)
    ensures IssueRun(env, t, setup, accountUrl, values).leaf.Some? ==>
              Answered(env.world, IssueRun(env, t, setup, accountUrl, values).trace, |t|)
  {
    hide Answered, Plan, OpenAccount, Fulfil, IdentifiersOfValues;
    PlannedNotEmpty(setup, values);
    var ending := IssueRun(env, t, setup, accountUrl, values);
    if ending.leaf.Some? {
      var routes := Plan(setup, values).value;
      var (t1, account) := OpenAccount(env.world, t, setup, accountUrl, values);
      var body := OrderBody(IdentifiersOfValues(values));
      var t2 := t1 + [Send(setup.newOrder, body)];
      OpenAccountAnswered(env.world, t, setup, accountUrl, values);
      AnsweredOne(env.world, t1, Send(setup.newOrder, body));
      AnsweredJoin(env.world, t1, t2, |t|);
      FulfilAnswered(env, setup, account, values, routes, t2, env.world(t2).url, env.world(t2).order);
      FulfilGrows(env, setup, account, values, routes, t2, env.world(t2).url, env.world(t2).order);
      AnsweredJoin(env.world, t2, ending.trace, |t|);
    }
  }

  lemma FulfilGrows(env: Env, setup: Setup, account: Option<string>, values: seq<Value>, routes: RouteMap, t: Trace,
                    url: string, order: OrderView)
    requires values != []
    ensures t <= Fulfil(env, setup, account, values, routes, t, url, order).trace
  {
    hide Fulfil, CleanedUp, Conclude, ForRequest;
    FulfilEnds(env, setup, account, values, routes, t, url, order);
    CleanedUpLeaf(env, setup, values, routes, t, url, order);
    var (ended, cleaned, leaf) := CleanedUp(env, setup, values, routes, t, url, order);
    if leaf.Some? { ConcludeKeeps(env.world, ended, setup, leaf.value, values); }
  }

  // ---------------------------------------------------------------- the outcome depends on those answers only

  lemma {:induction false} FetchAllSame(one: World, other: World, t: Trace, urls: seq<string>, sofar: seq<Fetched>)
    requires Agree(one, other, FetchAll(one, t, urls, sofar).0, |t|)
    ensures FetchAll(other, t, urls, sofar) == FetchAll(one, t, urls, sofar)
    decreases |urls|
  {
    hide Agree;
    if urls != [] {
      var sent, end := t + [Send(urls[0], EmptyBody)], FetchAll(one, t, urls, sofar).0;
      if one(sent).AuthzIs? {
        var more := sofar + [Fetched(urls[0], one(sent).authz)];
        FetchAllSends(one, sent, urls[1..], more);
        AgreePart(one, other, end, end, |t|, |sent|);
        AgreeAt(one, other, sent, end, |t|);
        FetchAllSame(one, other, sent, urls[1..], more);
      } else {
        AgreeAt(one, other, sent, end, |t|);
      }
    }
  }

  lemma {:induction false} SolveSame(one: World, other: World, t: Trace, authzs: seq<Fetched>, routes: RouteMap,
                                     open: seq<Prepared>)
    requires Agree(one, other, Solve(one, t, authzs, routes, open).0, |t|)
    ensures Solve(other, t, authzs, routes, open) == Solve(one, t, authzs, routes, open)
    decreases |authzs|
  {
    hide Agree, Choose;
    if authzs != [] && Choose(authzs[0].authz, routes).Some? {
      var (prepared, url) := Choose(authzs[0].authz, routes).value;
      var called, end := t + [Provision(prepared)], Solve(one, t, authzs, routes, open).0;
      var sent := called + [Send(url, ReadyBody)];
      if !Fails(one(called)) && !Fails(one(sent)) {
        SolveGrows(one, sent, authzs[1..], routes, open + [prepared]);
        AgreeAt(one, other, called, end, |t|);
        AgreeAt(one, other, sent, end, |t|);
        AgreePart(one, other, end, end, |t|, |sent|);
        SolveSame(one, other, sent, authzs[1..], routes, open + [prepared]);
      } else {
        AgreeAt(one, other, called, end, |t|);
        if !Fails(one(called)) { AgreeAt(one, other, sent, end, |t|); }
      }
    }
  }

  lemma {:induction false} PollAuthzSame(one: World, other: World, t: Trace, url: string, patience: nat)
    requires Agree(one, other, PollAuthz(one, t, url, patience).0, |t|)
    ensures PollAuthz(other, t, url, patience) == PollAuthz(one, t, url, patience)
    decreases patience
  {
    hide Agree, JudgeAuthz;
    var sent, end := t + [Send(url, EmptyBody)], PollAuthz(one, t, url, patience).0;
    if one(sent).AuthzIs? && JudgeAuthz(one(sent).authz.status) == Waiting && patience > 0 {
      PollAuthzSends(one, sent, url, patience - 1);
      AgreeAt(one, other, sent, end, |t|);
      AgreePart(one, other, end, end, |t|, |sent|);
      PollAuthzSame(one, other, sent, url, patience - 1);
    } else {
      AgreeAt(one, other, sent, end, |t|);
    }
  }

  lemma {:induction false} PollAuthzsSame(one: World, other: World, patience: Patience, t: Trace,
                                          authzs: seq<Fetched>)
    requires Agree(one, other, PollAuthzs(Env(one, patience), t, authzs).0, |t|)
    ensures PollAuthzs(Env(other, patience), t, authzs) == PollAuthzs(Env(one, patience), t, authzs)
    decreases |authzs|
  {
    hide Agree, PollAuthz;
    if authzs != [] {
      var (polled, ok) := PollAuthz(one, t, authzs[0].url, patience(t, authzs[0].url, AuthzLoop));
      var end := PollAuthzs(Env(one, patience), t, authzs).0;
      PollAuthzSends(one, t, authzs[0].url, patience(t, authzs[0].url, AuthzLoop));
      if ok {
        PollAuthzsSends(Env(one, patience), polled, authzs[1..]);
        AgreePart(one, other, polled, end, |t|, |t|);
        PollAuthzSame(one, other, t, authzs[0].url, patience(t, authzs[0].url, AuthzLoop));
        AgreePart(one, other, end, end, |t|, |polled|);
        PollAuthzsSame(one, other, patience, polled, authzs[1..]);
      } else {
        PollAuthzSame(one, other, t, authzs[0].url, patience(t, authzs[0].url, AuthzLoop));
      }
    }
  }

  lemma {:induction false} PollOrderSame(one: World, other: World, t: Trace, url: string, judge: OrderStatus -> Verdict,
                                         patience: nat)
    requires Agree(one, other, PollOrder(one, t, url, judge, patience).0, |t|)
    ensures PollOrder(other, t, url, judge, patience) == PollOrder(one, t, url, judge, patience)
    decreases patience
  {
    hide Agree;
    var sent, end := t + [Send(url, EmptyBody)], PollOrder(one, t, url, judge, patience).0;
    if one(sent).OrderIs? && judge(one(sent).order.status) == Waiting && patience > 0 {
      PollOrderSends(one, sent, url, judge, patience - 1);
      AgreeAt(one, other, sent, end, |t|);
      AgreePart(one, other, end, end, |t|, |sent|);
      PollOrderSame(one, other, sent, url, judge, patience - 1);
    } else {
      AgreeAt(one, other, sent, end, |t|);
    }
  }

  lemma FinalizeOrderSame(one: World, other: World, t: Trace, order: OrderView, csr: Csr)
    requires Agree(one, other, FinalizeOrder(one, t, order, csr).0, |t|)
    ensures FinalizeOrder(other, t, order, csr) == FinalizeOrder(one, t, order, csr)
  {
    hide Agree;
    if order.status == OrderReady {
      var sent := t + [Send(order.finalize, CsrBody(csr))];
      AgreeAt(one, other, sent, sent, |t|);
    }
  }

  lemma DownloadSame(one: World, other: World, t: Trace, order: OrderView)
    requires Agree(one, other, Download(one, t, order).0, |t|)
    ensures Download(other, t, order) == Download(one, t, order)
  {
    hide Agree;
    if order.certificate.Some? {
      var sent := t + [Send(order.certificate.value, EmptyBody)];
      AgreeAt(one, other, sent, sent, |t|);
    }
  }

  lemma AwaitValidSame(one: World, other: World, patience: Patience, t: Trace, order: OrderView, url: string)
    requires Agree(one, other, AwaitValid(Env(one, patience), t, order, url).0, |t|)
    ensures AwaitValid(Env(other, patience), t, order, url) == AwaitValid(Env(one, patience), t, order, url)
  {
    hide Agree, PollOrder;
    if order.status != OrderValid { PollOrderSame(one, other, t, url, JudgeOrder, patience(t, url, ValidLoop)); }
  }

  lemma ObtainSame(one: World, other: World, patience: Patience, t: Trace, url: string, csr: Option<Csr>)
    requires Agree(one, other, Obtain(Env(one, patience), t, url, csr).0, |t|)
    ensures Obtain(Env(other, patience), t, url, csr) == Obtain(Env(one, patience), t, url, csr)
  {
    hide Agree, PollOrder, FinalizeOrder, AwaitValid, Download, OnlySends;
    var env, end := Env(one, patience), Obtain(Env(one, patience), t, url, csr).0;
    var (t1, ready) := PollOrder(one, t, url, JudgeReady, patience(t, url, ReadyLoop));
    var t2 := if ready.Some? && csr.Some? then FinalizeOrder(one, t1, ready.value, csr.value) else (t1, None);
    var t3 := if t2.1.Some? then AwaitValid(env, t2.0, t2.1.value, url) else (t2.0, None);
    ObtainPrefixes(env, t, url, csr);
    AgreePart(one, other, t1, end, |t|, |t|);
    PollOrderSame(one, other, t, url, JudgeReady, patience(t, url, ReadyLoop));
    if ready.Some? && csr.Some? {
      AgreePart(one, other, t2.0, end, |t|, |t1|);
      FinalizeOrderSame(one, other, t1, ready.value, csr.value);
      if t2.1.Some? {
        AgreePart(one, other, t3.0, end, |t|, |t2.0|);
        AwaitValidSame(one, other, patience, t2.0, t2.1.value, url);
        if t3.1.Some? {
          AgreePart(one, other, end, end, |t|, |t3.0|);
          DownloadSame(one, other, t3.0, t3.1.value);
        }
      }
    }
  }

  lemma ObtainPrefixes(env: Env, t: Trace, url: string, csr: Option<Csr>)
    ensures var end := Obtain(env, t, url, csr).0;
            var (t1, ready) := PollOrder(env.world, t, url, JudgeReady, env.patience(t, url, ReadyLoop));
            var t2 := if ready.Some? && csr.Some? then FinalizeOrder(env.world, t1, ready.value, csr.value)
              else (t1, None);
            var t3 := if t2.1.Some? then AwaitValid(env, t2.0, t2.1.value, url) else (t2.0, None);
            t <= t1 <= t2.0 <= t3.0 <= end
  {
    hide PollOrder;
    PollOrderSends(env.world, t, url, JudgeReady, env.patience(t, url, ReadyLoop));
    var (t1, ready) := PollOrder(env.world, t, url, JudgeReady, env.patience(t, url, ReadyLoop));
    if ready.Some? && csr.Some? {
      var t2 := FinalizeOrder(env.world, t1, ready.value, csr.value).0;
      PollOrderSends(env.world, t2, url, JudgeOrder, env.patience(t2, url, ValidLoop));
    }
  }

  lemma AttemptSame(one: World, other: World, patience: Patience, t: Trace, url: string, authzs: seq<Fetched>,
                    routes: RouteMap, csr: Option<Csr>)
    requires Agree(one, other, Attempt(Env(one, patience), t, url, authzs, routes, csr).0, |t|)
    ensures Attempt(Env(other, patience), t, url, authzs, routes, csr) ==
            Attempt(Env(one, patience), t, url, authzs, routes, csr)
  {
    hide Agree, Solve, PollAuthzs, Obtain, OnlySends;
    var env, end := Env(one, patience), Attempt(Env(one, patience), t, url, authzs, routes, csr).0;
    var (t1, provisioned, solved) := Solve(one, t, authzs, routes, []);
    AttemptPrefixes(env, t, url, authzs, routes, csr);
    AgreePart(one, other, t1, end, |t|, |t|);
    SolveSame(one, other, t, authzs, routes, []);
    if solved {
      var (t2, valid) := PollAuthzs(env, t1, authzs);
      AgreePart(one, other, t2, end, |t|, |t1|);
      PollAuthzsSame(one, other, patience, t1, authzs);
      if valid {
        AgreePart(one, other, end, end, |t|, |t2|);
        ObtainSame(one, other, patience, t2, url, csr);
      }
    }
  }

  lemma AttemptPrefixes(env: Env, t: Trace, url: string, authzs: seq<Fetched>, routes: RouteMap, csr: Option<Csr>)
    ensures var end := Attempt(env, t, url, authzs, routes, csr).0;
            var (t1, provisioned, solved) := Solve(env.world, t, authzs, routes, []);
            t <= t1 <= end && (solved ==> t1 <= PollAuthzs(env, t1, authzs).0 <= end)
  {
    hide Solve, PollAuthzs, Obtain;
    SolveGrows(env.world, t, authzs, routes, []);
    var t1 := Solve(env.world, t, authzs, routes, []).0;
    PollAuthzsSends(env, t1, authzs);
    ObtainSends(env, PollAuthzs(env, t1, authzs).0, url, csr);
  }

  lemma {:induction false} CleanUpSame(one: World, other: World, t: Trace, open: seq<Prepared>)
    requires Agree(one, other, CleanUp(one, t, open).0, |t|)
    ensures CleanUp(other, t, open) == CleanUp(one, t, open)
    decreases |open|
  {
    hide Agree;
    if open != [] {
      var called, end := t + [Deprovision(open[0])], CleanUp(one, t, open).0;
      if one(called).Cancelled? {
        AgreeAt(one, other, called, end, |t|);
      } else {
        CleanUpGrows(one, called, open[1..]);
        AgreeAt(one, other, called, end, |t|);
        AgreePart(one, other, end, end, |t|, |called|);
        CleanUpSame(one, other, called, open[1..]);
      }
    }
  }

  lemma ConcludeSame(one: World, other: World, t: Trace, setup: Setup, leaf: Certificate, values: seq<Value>)
    requires Agree(one, other, Conclude(one, t, setup, leaf, values).0, |t|)
    ensures Conclude(other, t, setup, leaf, values) == Conclude(one, t, setup, leaf, values)
  {
    hide Agree, DnsTexts;
    var end := Conclude(one, t, setup, leaf, values).0;
    var t1 := Optionally(t, setup.hasStore, SaveCert(leaf, Texts(values)));
    if setup.hasStore { AgreeAt(one, other, t1, end, |t|); }
    if !(setup.hasStore && Fails(one(t1))) {
      var t2 := Optionally(t1, setup.hasLimiter, RecordIssuance(DnsTexts(values)));
      if setup.hasLimiter { AgreeAt(one, other, t2, end, |t|); }
      if !(setup.hasLimiter && Fails(one(t2))) && setup.hasEvents { AgreeAt(one, other, end, end, |t|); }
    }
  }

  lemma OpenAccountSame(one: World, other: World, t: Trace, setup: Setup, accountUrl: Option<string>,
                        values: seq<Value>)
    requires Agree(one, other, OpenAccount(one, t, setup, accountUrl, values).0, |t|)
    ensures OpenAccount(other, t, setup, accountUrl, values) == OpenAccount(one, t, setup, accountUrl, values)
  {
    hide Agree, DnsTexts;
    var end := OpenAccount(one, t, setup, accountUrl, values).0;
    var checked := Optionally(t, setup.hasLimiter, LimitCheck(DnsTexts(values)));
    if setup.hasLimiter { AgreeAt(one, other, checked, end, |t|); }
    if !(setup.hasLimiter && (one(checked).Blocked? || Fails(one(checked)))) && accountUrl.None? {
      AgreeAt(one, other, end, end, |t|);
    }
  }

  lemma FulfilSame(one: World, other: World, patience: Patience, setup: Setup, account: Option<string>,
                   values: seq<Value>, routes: RouteMap, t: Trace, url: string, order: OrderView)
    requires values != []
    requires Agree(one, other, Fulfil(Env(one, patience), setup, account, values, routes, t, url, order).trace, |t|)
    ensures Fulfil(Env(other, patience), setup, account, values, routes, t, url, order)
            == Fulfil(Env(one, patience), setup, account, values, routes, t, url, order)
  {
    hide Agree, FetchAll, Attempt, CleanUp, AcceptLeaf, Conclude, OnlySends, GeneratedCsr;
    var env := Env(one, patience);
    var end := Fulfil(env, setup, account, values, routes, t, url, order).trace;
    var csr := GeneratedCsr(setup.certKey, values);
    var (t1, authzs) := FetchAll(one, t, order.authorizations, []);
    FulfilPrefixes(env, setup, account, values, routes, t, url, order);
    AgreePart(one, other, t1, end, |t|, |t|);
    FetchAllSame(one, other, t, order.authorizations, []);
    if authzs.Some? {
      var (t2, provisioned, chain) := Attempt(env, t1, url, authzs.value, routes, csr);
      var (t3, cleaned) := CleanUp(one, t2, provisioned);
      AgreePart(one, other, t2, end, |t|, |t1|);
      AttemptSame(one, other, patience, t1, url, authzs.value, routes, csr);
      AgreePart(one, other, t3, end, |t|, |t2|);
      CleanUpSame(one, other, t2, provisioned);
      if cleaned && chain.Some? && AcceptLeaf(chain.value, values, setup.certKey).Some? {
        AgreePart(one, other, end, end, |t|, |t3|);
        ConcludeSame(one, other, t3, setup, AcceptLeaf(chain.value, values, setup.certKey).value, values);
      }
    }
  }

  lemma FulfilPrefixes(env: Env, setup: Setup, account: Option<string>, values: seq<Value>, routes: RouteMap, t: Trace,
                       url: string, order: OrderView)
    requires values != []
    ensures var end := Fulfil(env, setup, account, values, routes, t, url, order).trace;
            var (t1, authzs) := FetchAll(env.world, t, order.authorizations, []);
            && t <= t1 <= end
            && (authzs.Some? ==>
                  var (t2, provisioned, chain) :=
                    Attempt(env, t1, url, authzs.value, routes, GeneratedCsr(setup.certKey, values));
                  t1 <= t2 <= CleanUp(env.world, t2, provisioned).0 <= end)
  {
    hide FetchAll, Attempt, CleanUp, AcceptLeaf, Conclude, ForRequest, GeneratedCsr;
    var csr := GeneratedCsr(setup.certKey, values);
    var (t1, authzs) := FetchAll(env.world, t, order.authorizations, []);
    FetchAllSends(env.world, t, order.authorizations, []);
    if authzs.Some? {
      var (t2, provisioned, chain) := Attempt(env, t1, url, authzs.value, routes, csr);
      AttemptGrows(env, t1, url, authzs.value, routes, csr);
      CleanUpGrows(env.world, t2, provisioned);
      var (t3, cleaned) := CleanUp(env.world, t2, provisioned);
      if cleaned && chain.Some? && AcceptLeaf(chain.value, values, setup.certKey).Some? {
        ConcludeKeeps(env.world, t3, setup, AcceptLeaf(chain.value, values, setup.certKey).value, values);
      }
    }
  }

  /** Two worlds that answer alike along the history `issue` makes in one of them get the same
      history and the same outcome: nothing else about the world matters. */
  lemma IssueSame(one: World, other: World, patience: Patience, t: Trace, setup: Setup, accountUrl: Option<string>,
                  values: seq<Value>)
    requires Agree(one, other, IssueRun(Env(one, patience), t, setup, accountUrl, values).trace, |t|)
    ensures IssueRun(Env(other, patience), t, setup, accountUrl, values) ==
            IssueRun(Env(one, patience), t, setup, accountUrl, values)
  {
    hide Agree, Plan, OpenAccount, Fulfil, IdentifiersOfValues;
    PlannedNotEmpty(setup, values);
    var env := Env(one, patience);
    var end := IssueRun(env, t, setup, accountUrl, values).trace;
    if Plan(setup, values).Some? {
      var routes := Plan(setup, values).value;
      var (t1, account) := OpenAccount(one, t, setup, accountUrl, values);
      var t2 := t1 + [Send(setup.newOrder, OrderBody(IdentifiersOfValues(values)))];
      OpenAccountGrows(one, t, setup, accountUrl, values);
      if account.None? {
        OpenAccountSame(one, other, t, setup, accountUrl, values);
      } else if !one(t2).OrderAt? {
        AgreePart(one, other, t1, end, |t|, |t|);
        OpenAccountSame(one, other, t, setup, accountUrl, values);
        AgreeAt(one, other, t2, end, |t|);
      } else {
        FulfilGrows(env, setup, account, values, routes, t2, one(t2).url, one(t2).order);
        AgreePart(one, other, t1, end, |t|, |t|);
        OpenAccountSame(one, other, t, setup, accountUrl, values);
        AgreeAt(one, other, t2, end, |t|);
        AgreePart(one, other, end, end, |t|, |t2|);
        FulfilSame(one, other, patience, setup, account, values, routes, t2, one(t2).url, one(t2).order);
      }
    }
  }

  // ---------------------------------------------------------------- refusals and success

  /** A limiter that refuses (or fails) stops `issue` before anything else is called. */
  lemma RefusedBeforeSending(env: Env, t: Trace, setup: Setup, accountUrl: Option<string>, values: seq<Value>)
    requires Plan(setup, values).Some? && setup.hasLimiter
    requires var a := env.world(t + [LimitCheck(DnsTexts(values))]); a.Blocked? || Fails(a)
    ensures IssueRun(env, t, setup, accountUrl, values) == Ending(t + [LimitCheck(DnsTexts(values))], accountUrl, None)
  {
    hide Plan, DnsTexts, Fulfil, IdentifiersOfValues;
  }

  /** The limiter is asked about, and told of, exactly the DNS names requested. */
  lemma {:induction false} LimitedNames(values: seq<Value>, name: string)
    ensures name in DnsTexts(values) <==> Dns(name) in values
  {
    if values != [] {
      LimitedNames(values[..|values| - 1], name);
      assert values == values[..|values| - 1] + [values[|values| - 1]];
    }
  }

  /** What a configured store, limiter and dispatcher are told of an issued certificate. */
  function Announcements(setup: Setup, leaf: Certificate, values: seq<Value>): Trace {
    (if setup.hasStore then [SaveCert(leaf, Texts(values))] else [])
    + (if setup.hasLimiter then [RecordIssuance(DnsTexts(values))] else [])
    + (if setup.hasEvents then [EmitIssued(Texts(values))] else [])
  }

  lemma ConcludeAnnounces(world: World, t: Trace, setup: Setup, leaf: Certificate, values: seq<Value>)
    ensures Conclude(world, t, setup, leaf, values).1.Some? ==>
              Conclude(world, t, setup, leaf, values).0 == t + Announcements(setup, leaf, values)
    ensures Conclude(world, t, setup, leaf, values).0 <= t + Announcements(setup, leaf, values)
  {
    hide DnsTexts, Texts;
  }

  /** A successful `issue` tells each configured collaborator exactly once, as its last calls,
      after every challenge was deprovisioned; a failed one tells at most a part of them. */
  lemma SuccessAnnounced(env: Env, t: Trace, setup: Setup, accountUrl: Option<string>, values: seq<Value>)
    requires Successes(env.world, t) == Cleaned(t)
    ensures var ending := IssueRun(env, t, setup, accountUrl, values);
            && (ending.leaf.Some? ==>
                  exists k :: ClosedAt(env.world, ending.trace, |t|, k)
                    && ending.trace == ending.trace[..k] + Announcements(setup, ending.leaf.value, values))
            && (!NothingKept(ending.trace, |t|) ==>
                  exists k, leaf :: ClosedAt(env.world, ending.trace, |t|, k) && ForRequest(leaf, values, setup.certKey)
                    && ending.trace <= ending.trace[..k] + Announcements(setup, leaf, values))
  {
    hide Successes, Cleaned, ForRequest, NothingKept, Announcements, IssueRun, Conclude, AllSavedForRequest,
      ConcludedAt;
    var ending := IssueRun(env, t, setup, accountUrl, values);
    IssueFailsClosed(env, t, setup, accountUrl, values);
    SuccessConcluded(env, t, setup, accountUrl, values);
    if ending.leaf.Some? {
      var k :| SucceededAt(env.world, setup, values, ending, |t|, k);
      ConcludeAnnounces(env.world, ending.trace[..k], setup, ending.leaf.value, values);
    }
    if !NothingKept(ending.trace, |t|) {
      var k, leaf :| ConcludedAt(env.world, setup, values, ending.trace, |t|, k, leaf);
      ConcludedMeans(env.world, setup, values, ending.trace, |t|, k, leaf);
      ConcludeAnnounces(env.world, ending.trace[..k], setup, leaf, values);
    }
  }

  /** Up to this point nothing was kept and every challenge was deprovisioned. */
  predicate ClosedAt(world: World, t: Trace, from: nat, k: int) {
    from <= k <= |t| && NothingKept(t[..k], from) && Successes(world, t[..k]) == Cleaned(t[..k])
  }

  predicate SucceededAt(world: World, setup: Setup, values: seq<Value>, ending: Ending, from: nat, k: int) {
    && ClosedAt(world, ending.trace, from, k) && ending.leaf.Some?
    && Conclude(world, ending.trace[..k], setup, ending.leaf.value, values) == (ending.trace, ending.leaf)
  }

  lemma ConcludedMeans(world: World, setup: Setup, values: seq<Value>, t: Trace, from: nat, k: int, leaf: Certificate)
    requires ConcludedAt(world, setup, values, t, from, k, leaf)
    ensures ClosedAt(world, t, from, k) && ForRequest(leaf, values, setup.certKey)
    ensures t == Conclude(world, t[..k], setup, leaf, values).0
  {
    hide Successes, Cleaned, ForRequest, NothingKept, Conclude;
  }

  lemma SuccessConcluded(env: Env, t: Trace, setup: Setup, accountUrl: Option<string>, values: seq<Value>)
    requires Successes(env.world, t) == Cleaned(t)
    ensures var ending := IssueRun(env, t, setup, accountUrl, values);
            ending.leaf.Some? ==> exists k :: SucceededAt(env.world, setup, values, ending, |t|, k)
  {
    hide Solving, Books, Plan, OpenAccount, Fulfil, Successes, Cleaned, IdentifiersOfValues, SucceededAt, Conclude,
      CleanedUp, NothingKept;
    BooksClosed(env.world, t);
    PlannedNotEmpty(setup, values);
    var ending := IssueRun(env, t, setup, accountUrl, values);
    if ending.leaf.Some? {
      var routes := Plan(setup, values).value;
      StartSolving(env.world, routes, t);
      var (t1, account) := OpenAccount(env.world, t, setup, accountUrl, values);
      OpenAccountSafe(env.world, routes, t, setup, accountUrl, values, |t|);
      OpenAccountGrows(env.world, t, setup, accountUrl, values);
      var body := OrderBody(IdentifiersOfValues(values));
      var t2 := t1 + [Send(setup.newOrder, body)];
      SolvingSend(env.world, routes, t1, |t|, [], setup.newOrder, body);
      FulfilConcluded(env, setup, account, values, routes, t2, env.world(t2).url, env.world(t2).order, |t|);
    }
  }

  lemma FulfilConcluded(env: Env, setup: Setup, account: Option<string>, values: seq<Value>, routes: RouteMap, t: Trace,
                        url: string, order: OrderView, from: nat)
    requires values != [] && from <= |t| && Solving(env.world, routes, t, from, [])
    ensures var ending := Fulfil(env, setup, account, values, routes, t, url, order);
            ending.leaf.Some? ==> exists k :: SucceededAt(env.world, setup, values, ending, from, k)
  {
    hide Solving, Books, Tidied, Fulfil, CleanedUp, Conclude, Successes, Cleaned, NothingKept, ForRequest, Quiet;
    var ending := Fulfil(env, setup, account, values, routes, t, url, order);
    FulfilEnds(env, setup, account, values, routes, t, url, order);
    CleanedUpSafe(env, setup, values, routes, t, url, order, from);
    CleanedUpLeaf(env, setup, values, routes, t, url, order);
    var (ended, cleaned, leaf) := CleanedUp(env, setup, values, routes, t, url, order);
    if ending.leaf.Some? {
      SolvingMeans(env.world, routes, ended, from);
      BooksClosed(env.world, ended);
      ConcludeKeeps(env.world, ended, setup, leaf.value, values);
      assert ending.trace[..|ended|] == ended;
      assert SucceededAt(env.world, setup, values, ending, from, |ended|);
    }
  }
}
