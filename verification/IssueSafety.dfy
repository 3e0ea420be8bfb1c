/** What every run of `issue` keeps, whatever the server, the handlers and the other
    collaborators do. */
module IssueSafety {
  import opened Wrappers
  import opened Identifiers
  import opened CsrBinding
  import opened Acme
  import opened Polling
  import opened Renewal
  import opened IssueFlow

  // ---------------------------------------------------------------- reading a history

  /** The challenges whose `provision` returned, in order. */
  function Successes(world: World, t: Trace): seq<Prepared> {
    if t == [] then []
    else
      var rest, last := Successes(world, t[..|t| - 1]), t[|t| - 1];
      if last.Provision? && !Fails(world(t)) then rest + [last.prepared] else rest
  }

  /** The challenges for which `deprovision` was called, in order. */
  function Cleaned(t: Trace): seq<Prepared> {
    if t == [] then []
    else
      var rest, last := Cleaned(t[..|t| - 1]), t[|t| - 1];
      if last.Deprovision? then rest + [last.prepared] else rest
  }

  /** The server answered an earlier request with this authorization. */
  ghost predicate Heard(world: World, t: Trace, authz: Authorization) {
    exists j :: 0 <= j < |t| && t[j].Send? && world(t[..j + 1]) == AuthzIs(authz)
  }

  /** A provision is for an authorization the server sent, for an identifier that was
      requested, by the handler, under the name and with the challenge type configured. */
  ghost predicate ProvisionJustified(world: World, routes: RouteMap, t: Trace, i: nat)
    requires i < |t| && t[i].Provision?
  {
    exists authz :: Heard(world, t[..i], authz) && ChosenFor(authz, routes, t[i].prepared)
  }

  predicate ChosenFor(authz: Authorization, routes: RouteMap, prepared: Prepared) {
    Choose(authz, routes).Some? && Choose(authz, routes).value.0 == prepared
  }

  /** Provisions beyond this point are justified. */
  ghost predicate AllJustified(world: World, routes: RouteMap, t: Trace, from: nat) {
    forall i: nat :: from <= i < |t| && t[i].Provision? ==> ProvisionJustified(world, routes, t, i)
  }

  predicate IsFinal(effect: Effect) {
    effect.SaveCert? || effect.RecordIssuance? || effect.EmitIssued?
  }

  /** The store, the limiter's log and the issued event are untouched beyond this point. */
  predicate NothingKept(t: Trace, from: nat) {
    forall i :: from <= i < |t| ==> !IsFinal(t[i])
  }

  /** No deprovision was cancelled beyond this point. */
  ghost predicate NoneCancelled(world: World, t: Trace, from: nat) {
    forall i: nat :: from <= i < |t| && t[i].Deprovision? ==> !world(t[..i + 1]).Cancelled?
  }

  /** Everything provisioned so far is deprovisioned, except these. */
  predicate Books(world: World, t: Trace, open: seq<Prepared>) {
    Successes(world, t) == Cleaned(t) + open
  }

  // ---------------------------------------------------------------- one call more

  lemma OneMore(world: World, t: Trace, effect: Effect)
    ensures Successes(world, t + [effect]) ==
            Successes(world, t) + if effect.Provision? && !Fails(world(t + [effect])) then [effect.prepared] else []
    ensures Cleaned(t + [effect]) == Cleaned(t) + if effect.Deprovision? then [effect.prepared] else []
  {
    assert (t + [effect])[..|t|] == t;
  }

  lemma NeutralBooks(world: World, t: Trace, effect: Effect, open: seq<Prepared>)
    requires Books(world, t, open) && !effect.Provision? && !effect.Deprovision?
    ensures Books(world, t + [effect], open)
  {
    OneMore(world, t, effect);
  }

  lemma ProvisionBooks(world: World, t: Trace, prepared: Prepared, open: seq<Prepared>)
    requires Books(world, t, open)
    ensures var called := t + [Provision(prepared)];
            Books(world, called, if Fails(world(called)) then open else open + [prepared])
  {
    OneMore(world, t, Provision(prepared));
    assert Cleaned(t) + (open + [prepared]) == (Cleaned(t) + open) + [prepared];
  }

  lemma NoneCancelledLater(world: World, t: Trace, after: Trace, from: nat)
    requires NoneCancelled(world, t, from) && t <= after
    requires forall i :: |t| <= i < |after| ==> !after[i].Deprovision?
    ensures NoneCancelled(world, after, from)
  {
    forall i: nat | from <= i < |after| && after[i].Deprovision? ensures !world(after[..i + 1]).Cancelled? {
      assert after[..i + 1] == t[..i + 1];
    }
  }

  lemma DeprovisionBooks(world: World, t: Trace, open: seq<Prepared>)
    requires Books(world, t, open) && open != []
    ensures Books(world, t + [Deprovision(open[0])], open[1..])
  {
    OneMore(world, t, Deprovision(open[0]));
    assert open == [open[0]] + open[1..];
  }

  /** Requests change no books, keep nothing and provision nothing. */
  predicate OnlySends(t: Trace, after: Trace) {
    t <= after && forall i :: |t| <= i < |after| ==> after[i].Send?
  }

  lemma {:induction false} SendsKeepBooks(world: World, t: Trace, after: Trace, open: seq<Prepared>)
    requires OnlySends(t, after) && Books(world, t, open)
    ensures Books(world, after, open)
    decreases |after|
  {
    hide Books;
    if t != after {
      var front := after[..|after| - 1];
      assert after == front + [after[|after| - 1]];
      SendsKeepBooks(world, t, front, open);
      NeutralBooks(world, front, after[|after| - 1], open);
    } else {
      assert t == after;
    }
  }

  lemma OnlySendsTransitive(t: Trace, middle: Trace, after: Trace)
    requires OnlySends(t, middle) && OnlySends(middle, after)
    ensures OnlySends(t, after)
  {
  }

  lemma OneSend(t: Trace, url: string, body: Body)
    ensures OnlySends(t, t + [Send(url, body)])
  {
  }

  // ---------------------------------------------------------------- the stages that only send

  lemma {:induction false} FetchAllSends(world: World, t: Trace, urls: seq<string>, sofar: seq<Fetched>)
    ensures OnlySends(t, FetchAll(world, t, urls, sofar).0)
    decreases |urls|
  {
    hide OnlySends;
    if urls == [] {
      NoSend(t);
    } else {
      var sent := t + [Send(urls[0], EmptyBody)];
      OneSend(t, urls[0], EmptyBody);
      if world(sent).AuthzIs? {
        FetchAllSends(world, sent, urls[1..], sofar + [Fetched(urls[0], world(sent).authz)]);
        OnlySendsTransitive(t, sent, FetchAll(world, t, urls, sofar).0);
      }
    }
  }

  lemma NoSend(t: Trace)
    ensures OnlySends(t, t)
  {
  }

  lemma {:induction false} PollAuthzSends(world: World, t: Trace, url: string, patience: nat)
    ensures OnlySends(t, PollAuthz(world, t, url, patience).0)
    decreases patience
  {
    hide OnlySends, JudgeAuthz;
    var sent := t + [Send(url, EmptyBody)];
    OneSend(t, url, EmptyBody);
    if world(sent).AuthzIs? && JudgeAuthz(world(sent).authz.status) == Waiting && patience > 0 {
      PollAuthzSends(world, sent, url, patience - 1);
      OnlySendsTransitive(t, sent, PollAuthz(world, t, url, patience).0);
    }
  }

  lemma {:induction false} PollAuthzsSends(env: Env, t: Trace, authzs: seq<Fetched>)
    ensures OnlySends(t, PollAuthzs(env, t, authzs).0)
    decreases |authzs|
  {
    hide OnlySends, PollAuthz;
    if authzs == [] {
      NoSend(t);
    } else {
      var (polled, ok) := PollAuthz(env.world, t, authzs[0].url, env.patience(t, authzs[0].url, AuthzLoop));
      PollAuthzSends(env.world, t, authzs[0].url, env.patience(t, authzs[0].url, AuthzLoop));
      if ok {
        PollAuthzsSends(env, polled, authzs[1..]);
        OnlySendsTransitive(t, polled, PollAuthzs(env, t, authzs).0);
      }
    }
  }

  lemma {:induction false} PollOrderSends(world: World, t: Trace, url: string, judge: OrderStatus -> Verdict,
                                          patience: nat)
    ensures OnlySends(t, PollOrder(world, t, url, judge, patience).0)
    decreases patience
  {
    hide OnlySends;
    var sent := t + [Send(url, EmptyBody)];
    OneSend(t, url, EmptyBody);
    if world(sent).OrderIs? && judge(world(sent).order.status) == Waiting && patience > 0 {
      PollOrderSends(world, sent, url, judge, patience - 1);
      OnlySendsTransitive(t, sent, PollOrder(world, t, url, judge, patience).0);
    }
  }

  lemma ObtainSends(env: Env, t: Trace, url: string, csr: Option<Csr>)
    ensures OnlySends(t, Obtain(env, t, url, csr).0)
  {
    hide OnlySends, PollOrder;
    var (t1, ready) := PollOrder(env.world, t, url, JudgeReady, env.patience(t, url, ReadyLoop));
    PollOrderSends(env.world, t, url, JudgeReady, env.patience(t, url, ReadyLoop));
    if ready.Some? && csr.Some? {
      var (t2, finalized) := FinalizeOrder(env.world, t1, ready.value, csr.value);
      NoSend(t1);
      OneSend(t1, ready.value.finalize, CsrBody(csr.value));
      OnlySendsTransitive(t, t1, t2);
      if finalized.Some? {
        var (t3, valid) := AwaitValid(env, t2, finalized.value, url);
        NoSend(t2);
        PollOrderSends(env.world, t2, url, JudgeOrder, env.patience(t2, url, ValidLoop));
        OnlySendsTransitive(t, t2, t3);
        if valid.Some? {
          DownloadSends(env.world, t3, valid.value);
          OnlySendsTransitive(t, t3, Download(env.world, t3, valid.value).0);
        }
      }
    }
  }

  lemma DownloadSends(world: World, t: Trace, order: OrderView)
    ensures OnlySends(t, Download(world, t, order).0)
  {
  }

  // ---------------------------------------------------------------- growing histories

  lemma HeardLater(world: World, t: Trace, after: Trace, authz: Authorization)
    requires t <= after && Heard(world, t, authz)
    ensures Heard(world, after, authz)
  {
    var j :| 0 <= j < |t| && t[j].Send? && world(t[..j + 1]) == AuthzIs(authz);
    assert after[..j + 1] == t[..j + 1];
  }

  lemma JustifiedLater(world: World, routes: RouteMap, t: Trace, after: Trace, from: nat)
    requires t <= after && AllJustified(world, routes, t, from)
    requires forall i :: |t| <= i < |after| ==> !after[i].Provision?
    ensures AllJustified(world, routes, after, from)
  {
    hide Heard, ChosenFor;
    forall i: nat | from <= i < |after| && after[i].Provision? ensures ProvisionJustified(world, routes, after, i) {
      assert after[..i] == t[..i];
      assert ProvisionJustified(world, routes, t, i);
    }
  }

  lemma JustifiedOneMore(world: World, routes: RouteMap, t: Trace, from: nat, authz: Authorization, prepared: Prepared)
    requires AllJustified(world, routes, t, from) && Heard(world, t, authz) && ChosenFor(authz, routes, prepared)
    ensures AllJustified(world, routes, t + [Provision(prepared)], from)
  {
    hide Heard, ChosenFor;
    var after := t + [Provision(prepared)];
    forall i: nat | from <= i < |after| && after[i].Provision? ensures ProvisionJustified(world, routes, after, i) {
      assert after[..i] == t[..i];
      if i < |t| { assert ProvisionJustified(world, routes, t, i); }
    }
  }

  // ---------------------------------------------------------------- fetching and solving

  ghost predicate AllHeard(world: World, t: Trace, authzs: seq<Fetched>) {
    forall k :: 0 <= k < |authzs| ==> Heard(world, t, authzs[k].authz)
  }

  lemma AllHeardLater(world: World, t: Trace, after: Trace, authzs: seq<Fetched>)
    requires t <= after && AllHeard(world, t, authzs)
    ensures AllHeard(world, after, authzs)
  {
    hide Heard;
    forall k | 0 <= k < |authzs| ensures Heard(world, after, authzs[k].authz) {
      HeardLater(world, t, after, authzs[k].authz);
    }
  }

  lemma {:induction false} FetchedWereHeard(world: World, t: Trace, urls: seq<string>, sofar: seq<Fetched>)
    requires AllHeard(world, t, sofar)
    ensures var (after, authzs) := FetchAll(world, t, urls, sofar);
            authzs.Some? ==> AllHeard(world, after, authzs.value)
    decreases |urls|
  {
    hide Heard;
    if urls != [] {
      var sent := t + [Send(urls[0], EmptyBody)];
      if world(sent).AuthzIs? {
        JustHeard(world, t, urls[0], EmptyBody);
        AllHeardLater(world, t, sent, sofar);
        FetchedWereHeard(world, sent, urls[1..], sofar + [Fetched(urls[0], world(sent).authz)]);
      }
    }
  }

  lemma JustHeard(world: World, t: Trace, url: string, body: Body)
    requires world(t + [Send(url, body)]).AuthzIs?
    ensures Heard(world, t + [Send(url, body)], world(t + [Send(url, body)]).authz)
  {
    var sent := t + [Send(url, body)];
    assert sent[..|t| + 1] == sent && sent[|t|].Send?;
  }

  /** What holds of the history while challenges are being solved. */
  ghost predicate Solving(world: World, routes: RouteMap, t: Trace, from: nat, open: seq<Prepared>) {
    && Books(world, t, open)
    && AllJustified(world, routes, t, from)
    && NothingKept(t, from)
    && NoneCancelled(world, t, from)
  }

  lemma SolvingSend(world: World, routes: RouteMap, t: Trace, from: nat, open: seq<Prepared>, url: string, body: Body)
    requires Solving(world, routes, t, from, open)
    ensures Solving(world, routes, t + [Send(url, body)], from, open)
  {
    hide Books, AllJustified, NoneCancelled;
    NeutralBooks(world, t, Send(url, body), open);
    JustifiedLater(world, routes, t, t + [Send(url, body)], from);
    NoneCancelledLater(world, t, t + [Send(url, body)], from);
  }

  lemma SolvingProvision(world: World, routes: RouteMap, t: Trace, from: nat, open: seq<Prepared>, authz: Authorization,
                         prepared: Prepared)
    requires Solving(world, routes, t, from, open) && Heard(world, t, authz) && ChosenFor(authz, routes, prepared)
    ensures var called := t + [Provision(prepared)];
            Solving(world, routes, called, from, if Fails(world(called)) then open else open + [prepared])
  {
    hide Books, AllJustified, Heard, ChosenFor, NoneCancelled;
    ProvisionBooks(world, t, prepared, open);
    NoneCancelledLater(world, t, t + [Provision(prepared)], from);
    JustifiedOneMore(world, routes, t, from, authz, prepared);
  }

  lemma SolvingSends(world: World, routes: RouteMap, t: Trace, after: Trace, from: nat, open: seq<Prepared>)
    requires Solving(world, routes, t, from, open) && OnlySends(t, after)
    ensures Solving(world, routes, after, from, open)
  {
    hide Books, AllJustified, NoneCancelled;
    SendsKeepBooks(world, t, after, open);
    JustifiedLater(world, routes, t, after, from);
    NoneCancelledLater(world, t, after, from);
  }

  lemma {:induction false} SolveSafe(world: World, t: Trace, authzs: seq<Fetched>, routes: RouteMap,
                                     open: seq<Prepared>, from: nat)
    requires Solving(world, routes, t, from, open) && AllHeard(world, t, authzs)
    ensures var (after, provisioned, solved) := Solve(world, t, authzs, routes, open);
            Solving(world, routes, after, from, provisioned)
    decreases |authzs|
  {
    hide Solving, Heard, Choose;
    if authzs != [] && Choose(authzs[0].authz, routes).Some? {
      var (prepared, url) := Choose(authzs[0].authz, routes).value;
      var called := t + [Provision(prepared)];
      SolvingProvision(world, routes, t, from, open, authzs[0].authz, prepared);
      if !Fails(world(called)) {
        var sent := called + [Send(url, ReadyBody)];
        SolvingSend(world, routes, called, from, open + [prepared], url, ReadyBody);
        if !Fails(world(sent)) {
          assert forall k :: 0 <= k < |authzs[1..]| ==> authzs[1..][k] == authzs[k + 1];
          AllHeardLater(world, t, sent, authzs[1..]);
          SolveSafe(world, sent, authzs[1..], routes, open + [prepared], from);
        }
      }
    }
  }

  lemma AttemptSafe(env: Env, t: Trace, url: string, authzs: seq<Fetched>, routes: RouteMap, csr: Option<Csr>,
                    from: nat)
    requires Solving(env.world, routes, t, from, []) && AllHeard(env.world, t, authzs)
    ensures var (after, provisioned, chain) := Attempt(env, t, url, authzs, routes, csr);
            Solving(env.world, routes, after, from, provisioned)
  {
    hide Solving, Heard, AllHeard, Solve, PollAuthzs, Obtain, OnlySends;
    SolveSafe(env.world, t, authzs, routes, [], from);
    var (t1, provisioned, solved) := Solve(env.world, t, authzs, routes, []);
    if solved {
      PollAuthzsSends(env, t1, authzs);
      var (t2, valid) := PollAuthzs(env, t1, authzs);
      SolvingSends(env.world, routes, t1, t2, from, provisioned);
      if valid {
        ObtainSends(env, t2, url, csr);
        SolvingSends(env.world, routes, t2, Obtain(env, t2, url, csr).0, from, provisioned);
      }
    }
  }

  /** The history ends with a cancelled deprovision. */
  predicate EndsCancelled(world: World, t: Trace) {
    t != [] && t[|t| - 1].Deprovision? && world(t).Cancelled?
  }

  /** At most the last call of the history is a cancelled deprovision. */
  ghost predicate CancelledLast(world: World, t: Trace, from: nat) {
    forall i: nat :: from <= i < |t| - 1 && t[i].Deprovision? ==> !world(t[..i + 1]).Cancelled?
  }

  /** The state of affairs after the `finally` block: what is left open is left because the
      block was cancelled. */
  ghost predicate Tidied(world: World, routes: RouteMap, t: Trace, from: nat, left: seq<Prepared>) {
    && Books(world, t, left)
    && AllJustified(world, routes, t, from)
    && NothingKept(t, from)
    && CancelledLast(world, t, from)
    && (left != [] ==> |t| > from && EndsCancelled(world, t))
  }

  /** The cleanup deprovisions in order; it leaves something open only if it is cancelled
      before the last, and what it was cancelled at has been called. */
  lemma {:induction false} CleanUpSafe(world: World, routes: RouteMap, t: Trace, from: nat, open: seq<Prepared>)
    requires Solving(world, routes, t, from, open) && from <= |t|
    ensures var (after, cleaned) := CleanUp(world, t, open);
            && (cleaned ==> Solving(world, routes, after, from, []))
            && exists left :: Tidied(world, routes, after, from, left) && (cleaned ==> left == [])
    decreases |open|
  {
    hide Solving, Tidied;
    if open == [] {
      SolvedIsTidy(world, routes, t, from);
    } else {
      var called := t + [Deprovision(open[0])];
      DeprovisionStep(world, routes, t, from, open);
      if !world(called).Cancelled? { CleanUpSafe(world, routes, called, from, open[1..]); }
    }
  }

  lemma SolvedIsTidy(world: World, routes: RouteMap, t: Trace, from: nat)
    requires Solving(world, routes, t, from, [])
    ensures Tidied(world, routes, t, from, [])
  {
    hide Books, AllJustified;
  }

  lemma DeprovisionStep(world: World, routes: RouteMap, t: Trace, from: nat, open: seq<Prepared>)
    requires Solving(world, routes, t, from, open) && open != [] && from <= |t|
    ensures var called := t + [Deprovision(open[0])];
            && (!world(called).Cancelled? ==> Solving(world, routes, called, from, open[1..]))
            && (world(called).Cancelled? ==> Tidied(world, routes, called, from, open[1..]))
  {
    hide Books, AllJustified;
    var called := t + [Deprovision(open[0])];
    DeprovisionBooks(world, t, open);
    JustifiedLater(world, routes, t, called, from);
    assert called[..|t| + 1] == called;
    forall i: nat | from <= i < |t| && called[i].Deprovision? ensures !world(called[..i + 1]).Cancelled? {
      assert called[..i + 1] == t[..i + 1];
    }
  }

  // ---------------------------------------------------------------- the whole call

  /** What holds of a history at every end of `issue`. */
  ghost predicate Accounted(world: World, routes: RouteMap, t: Trace, from: nat, left: seq<Prepared>) {
    && Books(world, t, left)
    && AllJustified(world, routes, t, from)
    && CancelledLast(world, t, from)
    && (left != [] ==> |t| > from && EndsCancelled(world, t))
  }

  /** The calls of `Conclude` keep the books, and neither provision nor deprovision. */
  lemma ConcludeSafe(world: World, routes: RouteMap, t: Trace, setup: Setup, leaf: Certificate, values: seq<Value>,
                     from: nat)
    requires Quiet(world, routes, t, from)
    ensures Quiet(world, routes, Conclude(world, t, setup, leaf, values).0, from)
  {
    hide Quiet, DnsTexts;
    var t1 := Optionally(t, setup.hasStore, SaveCert(leaf, Texts(values)));
    NeutralMaybe(world, routes, t, setup.hasStore, SaveCert(leaf, Texts(values)), from);
    if !(setup.hasStore && Fails(world(t1))) {
      var t2 := Optionally(t1, setup.hasLimiter, RecordIssuance(DnsTexts(values)));
      NeutralMaybe(world, routes, t1, setup.hasLimiter, RecordIssuance(DnsTexts(values)), from);
      if !(setup.hasLimiter && Fails(world(t2))) {
        NeutralMaybe(world, routes, t2, setup.hasEvents, EmitIssued(Texts(values)), from);
      }
    }
  }

  /** Nothing open and nothing cancelled. */
  ghost predicate Quiet(world: World, routes: RouteMap, t: Trace, from: nat) {
    Books(world, t, []) && AllJustified(world, routes, t, from) && NoneCancelled(world, t, from)
  }

  lemma QuietIsAccounted(world: World, routes: RouteMap, t: Trace, from: nat)
    requires Quiet(world, routes, t, from)
    ensures Accounted(world, routes, t, from, [])
  {
    hide Books, AllJustified;
  }

  lemma NeutralMaybe(world: World, routes: RouteMap, t: Trace, wanted: bool, effect: Effect, from: nat)
    requires Quiet(world, routes, t, from) && !effect.Provision? && !effect.Deprovision?
    ensures Quiet(world, routes, Optionally(t, wanted, effect), from)
  {
    hide Books, AllJustified, NoneCancelled;
    if wanted {
      NeutralBooks(world, t, effect, []);
      JustifiedLater(world, routes, t, t + [effect], from);
      NoneCancelledLater(world, t, t + [effect], from);
    }
  }

  lemma OpenAccountSafe(world: World, routes: RouteMap, t: Trace, setup: Setup, accountUrl: Option<string>,
                        values: seq<Value>, from: nat)
    requires Solving(world, routes, t, from, [])
    ensures Solving(world, routes, OpenAccount(world, t, setup, accountUrl, values).0, from, [])
  {
    hide Solving, DnsTexts;
    var check := LimitCheck(DnsTexts(values));
    if setup.hasLimiter { SolvingLimitCheck(world, routes, t, from, DnsTexts(values)); }
    SolvingSend(world, routes, Optionally(t, setup.hasLimiter, check), from, [], setup.newAccount, AccountBody);
  }

  lemma SolvingLimitCheck(world: World, routes: RouteMap, t: Trace, from: nat, domains: seq<string>)
    requires Solving(world, routes, t, from, [])
    ensures Solving(world, routes, t + [LimitCheck(domains)], from, [])
  {
    hide Books, AllJustified, NoneCancelled;
    NeutralBooks(world, t, LimitCheck(domains), []);
    JustifiedLater(world, routes, t, t + [LimitCheck(domains)], from);
    NoneCancelledLater(world, t, t + [LimitCheck(domains)], from);
  }

  lemma StartSolving(world: World, routes: RouteMap, t: Trace)
    requires Books(world, t, [])
    ensures Solving(world, routes, t, |t|, [])
  {
  }

  /** The history when `Fulfil` has left its `finally` block, whether the block got to its
      end, and the leaf that is then accepted. */
  function CleanedUp(env: Env, setup: Setup, values: seq<Value>, routes: RouteMap, t: Trace, url: string,
                     order: OrderView)
    : (Trace, bool, Option<Certificate>)
    requires values != []
  {
    var (t1, authzs) := FetchAll(env.world, t, order.authorizations, []);
    if authzs.None? then (t1, true, None)
    else
      var (t2, provisioned, chain) := Attempt(env, t1, url, authzs.value, routes, GeneratedCsr(setup.certKey, values));
      var (t3, cleaned) := CleanUp(env.world, t2, provisioned);
      (t3, cleaned, if chain.None? || !cleaned then None else AcceptLeaf(chain.value, values, setup.certKey))
  }

  lemma FulfilEnds(env: Env, setup: Setup, account: Option<string>, values: seq<Value>, routes: RouteMap, t: Trace,
                   url: string, order: OrderView)
    requires values != []
    ensures var (ended, cleaned, leaf) := CleanedUp(env, setup, values, routes, t, url, order);
            && (leaf.Some? ==> cleaned)
            && Fulfil(env, setup, account, values, routes, t, url, order) ==
               match leaf
               case None => Ending(ended, account, None)
               case Some(l) =>
                 var (after, result) := Conclude(env.world, ended, setup, l, values);
                 Ending(after, account, result)
  {
    hide FetchAll, Attempt, CleanUp, AcceptLeaf, Conclude, GeneratedCsr;
  }

  lemma CleanedUpSafe(env: Env, setup: Setup, values: seq<Value>, routes: RouteMap, t: Trace, url: string,
                      order: OrderView, from: nat)
    requires values != [] && from <= |t| && Solving(env.world, routes, t, from, [])
    ensures var (ended, cleaned, leaf) := CleanedUp(env, setup, values, routes, t, url, order);
            && (cleaned ==> Solving(env.world, routes, ended, from, []))
            && exists left :: Tidied(env.world, routes, ended, from, left)
  {
    hide Solving, Tidied, FetchAll, Attempt, CleanUp, AcceptLeaf, OnlySends, Heard, GeneratedCsr;
    var (t1, authzs) := FetchAll(env.world, t, order.authorizations, []);
    FetchAllSends(env.world, t, order.authorizations, []);
    SendsGrow(t, t1);
    SolvingSends(env.world, routes, t, t1, from, []);
    FetchedWereHeard(env.world, t, order.authorizations, []);
    if authzs.None? {
      SolvedIsTidy(env.world, routes, t1, from);
    } else {
      var csr := GeneratedCsr(setup.certKey, values);
      AttemptSafe(env, t1, url, authzs.value, routes, csr, from);
      AttemptGrows(env, t1, url, authzs.value, routes, csr);
      var (t2, provisioned, chain) := Attempt(env, t1, url, authzs.value, routes, csr);
      CleanUpSafe(env.world, routes, t2, from, provisioned);
    }
  }

  lemma SendsGrow(t: Trace, after: Trace)
    requires OnlySends(t, after)
    ensures t <= after
  {
  }

  /** A deprovision that was cancelled while others were still to come. */
  predicate CancelledEarly(world: World, t: Trace, i: nat) {
    && i < |t| && t[i].Deprovision? && world(t[..i + 1]).Cancelled?
    && |Cleaned(t[..i + 1])| < |Successes(world, t)|
  }

  lemma AccountedMeans(world: World, routes: RouteMap, t: Trace, from: nat, left: seq<Prepared>)
    requires Accounted(world, routes, t, from, left)
    ensures Cleaned(t) <= Successes(world, t) && AllJustified(world, routes, t, from)
    ensures Cleaned(t) == Successes(world, t) <==> !exists i: nat :: from <= i && CancelledEarly(world, t, i)
  {
    hide Successes, Cleaned, AllJustified;
    if left == [] {
      assert Cleaned(t) + left == Cleaned(t);
      forall i: nat | from <= i ensures !CancelledEarly(world, t, i) {
        if i == |t| - 1 { assert t[..i + 1] == t; }
      }
    } else {
      assert t[..|t| - 1 + 1] == t;
      assert CancelledEarly(world, t, |t| - 1);
    }
  }

  /** On every path, whatever fails or is cancelled: the deprovisions called are, in order, a
      leading part of the provisions that returned, each once and nothing else; they are all
      of them exactly when no deprovision was cancelled but the last one due; and every
      provision is for a requested identifier, through its configured handler and challenge
      type. */
  lemma IssueBalanced(env: Env, t: Trace, setup: Setup, accountUrl: Option<string>, values: seq<Value>)
    requires Successes(env.world, t) == Cleaned(t)
    ensures var after := IssueRun(env, t, setup, accountUrl, values).trace;
            && Cleaned(after) <= Successes(env.world, after)
            && (Cleaned(after) == Successes(env.world, after) <==>
                  !exists i: nat :: |t| <= i && CancelledEarly(env.world, after, i))
            && AllJustified(env.world, if Plan(setup, values).Some? then Plan(setup, values).value else map[],
                            after, |t|)
  {
    hide Solving, Books, AllJustified, Plan, OpenAccount, Fulfil, Successes, Cleaned, IdentifiersOfValues, Accounted,
      CancelledEarly, Quiet;
    BooksClosed(env.world, t);
    if Plan(setup, values).Some? {
      PlannedNotEmpty(setup, values);
      var left := PlannedSafe(env, t, setup, accountUrl, values, Plan(setup, values).value);
      AccountedMeans(env.world, Plan(setup, values).value, IssueRun(env, t, setup, accountUrl, values).trace, |t|,
        left);
    } else {
      StartSolving(env.world, map[], t);
      SolvingMeans(env.world, map[], t, |t|);
      QuietIsAccounted(env.world, map[], t, |t|);
      AccountedMeans(env.world, map[], t, |t|, []);
    }
  }

  lemma PlannedSafe(env: Env, t: Trace, setup: Setup, accountUrl: Option<string>, values: seq<Value>, routes: RouteMap)
    returns (left: seq<Prepared>)
    requires Plan(setup, values) == Some(routes) && values != [] && Books(env.world, t, [])
    ensures Accounted(env.world, routes, IssueRun(env, t, setup, accountUrl, values).trace, |t|, left)
  {
    hide Solving, Books, Plan, OpenAccount, Fulfil, IdentifiersOfValues, Accounted, Quiet;
    left := [];
    StartSolving(env.world, routes, t);
    var (t1, account) := OpenAccount(env.world, t, setup, accountUrl, values);
    OpenAccountSafe(env.world, routes, t, setup, accountUrl, values, |t|);
    OpenAccountGrows(env.world, t, setup, accountUrl, values);
    SolvingMeans(env.world, routes, t1, |t|);
    QuietIsAccounted(env.world, routes, t1, |t|);
    if account.Some? {
      var body := OrderBody(IdentifiersOfValues(values));
      var t2 := t1 + [Send(setup.newOrder, body)];
      SolvingSend(env.world, routes, t1, |t|, [], setup.newOrder, body);
      SolvingMeans(env.world, routes, t2, |t|);
      QuietIsAccounted(env.world, routes, t2, |t|);
      if env.world(t2).OrderAt? {
        left := FulfilSafe(env, setup, account, values, routes, t2, env.world(t2).url, env.world(t2).order, |t|);
      }
    }
  }

  lemma FulfilSafe(env: Env, setup: Setup, account: Option<string>, values: seq<Value>, routes: RouteMap, t: Trace,
                   url: string, order: OrderView, from: nat) returns (left: seq<Prepared>)
    requires values != [] && from <= |t| && Solving(env.world, routes, t, from, [])
    ensures Accounted(env.world, routes, Fulfil(env, setup, account, values, routes, t, url, order).trace, from, left)
  {
    hide Solving, Fulfil, CleanedUp, Conclude, Tidied, Accounted, Quiet;
    FulfilEnds(env, setup, account, values, routes, t, url, order);
    CleanedUpSafe(env, setup, values, routes, t, url, order, from);
    var (ended, cleaned, leaf) := CleanedUp(env, setup, values, routes, t, url, order);
    if leaf.Some? {
      left := [];
      SolvingMeans(env.world, routes, ended, from);
      ConcludeSafe(env.world, routes, ended, setup, leaf.value, values, from);
      QuietIsAccounted(env.world, routes, Conclude(env.world, ended, setup, leaf.value, values).0, from);
    } else {
      left :| Tidied(env.world, routes, ended, from, left);
      TidiedIsAccounted(env.world, routes, ended, from, left);
    }
  }

  lemma TidiedIsAccounted(world: World, routes: RouteMap, t: Trace, from: nat, left: seq<Prepared>)
    requires Tidied(world, routes, t, from, left)
    ensures Accounted(world, routes, t, from, left) && NothingKept(t, from)
  {
    hide Books, AllJustified, CancelledLast, EndsCancelled;
  }

  lemma SolvingMeans(world: World, routes: RouteMap, t: Trace, from: nat)
    requires Solving(world, routes, t, from, [])
    ensures Books(world, t, []) && NothingKept(t, from) && Quiet(world, routes, t, from)
  {
    hide Books, AllJustified, NoneCancelled;
  }

  lemma BooksClosed(world: World, t: Trace)
    ensures Books(world, t, []) <==> Successes(world, t) == Cleaned(t)
  {
    assert Cleaned(t) + [] == Cleaned(t);
  }

  /** A cancelled deprovision skips the rest: with two challenges open only the first is ever
      deprovisioned. */
  lemma CancelledCleanUp(world: World, t: Trace, first: Prepared, second: Prepared)
    requires Books(world, t, [first, second]) && world(t + [Deprovision(first)]).Cancelled?
    ensures var (after, cleaned) := CleanUp(world, t, [first, second]);
            && !cleaned && after == t + [Deprovision(first)]
            && Successes(world, after) == Cleaned(after) + [second]
  {
    hide Successes, Cleaned;
    DeprovisionBooks(world, t, [first, second]);
    assert [first, second][1..] == [second];
  }

  // ---------------------------------------------------------------- failing closed

  /** The certificate is for exactly the requested typed identifiers and the generated key. */
  predicate ForRequest(leaf: Certificate, values: seq<Value>, key: PublicKey) {
    && leaf.key == key
    && SansReadable(leaf.sans) && leaf.sans != []
    && KeysOfValues(SanValues(leaf.sans)) == KeysOfValues(values)
  }

  lemma AcceptedIsForRequest(chain: Option<seq<Certificate>>, values: seq<Value>, key: PublicKey)
    ensures AcceptLeaf(chain, values, key).Some? <==>
            chain.Some? && chain.value != [] && ForRequest(chain.value[0], values, key)
    ensures AcceptLeaf(chain, values, key).Some? ==> AcceptLeaf(chain, values, key).value == chain.value[0]
  {
    hide KeysOfValues, SansReadable, SanValues;
  }

  lemma ConcludeKeeps(world: World, t: Trace, setup: Setup, leaf: Certificate, values: seq<Value>)
    ensures t <= Conclude(world, t, setup, leaf, values).0
    ensures var after := Conclude(world, t, setup, leaf, values).0;
            forall i :: |t| <= i < |after| && after[i].SaveCert? ==> after[i].leaf == leaf
    ensures Conclude(world, t, setup, leaf, values).1.Some? ==> Conclude(world, t, setup, leaf, values).1.value == leaf
  {
    hide DnsTexts;
  }

  /** Every certificate saved from here on is for the request. */
  predicate AllSavedForRequest(t: Trace, from: nat, values: seq<Value>, key: PublicKey) {
    forall i :: from <= i < |t| && t[i].SaveCert? ==> ForRequest(t[i].leaf, values, key)
  }

  /** Up to this point nothing was kept and every challenge was deprovisioned again; the
      rest of the history saves, records and announces this leaf, which is for the request. */
  predicate ConcludedAt(world: World, setup: Setup, values: seq<Value>, t: Trace, from: nat, k: int,
                        leaf: Certificate)
  {
    && from <= k <= |t|
    && NothingKept(t[..k], from) && Successes(world, t[..k]) == Cleaned(t[..k])
    && ForRequest(leaf, values, setup.certKey)
    && t == Conclude(world, t[..k], setup, leaf, values).0
  }

  /** `issue` fails closed: it saves, records or announces something only after accepting a
      leaf that is for exactly the requested typed identifiers and the generated key; that
      leaf is what it saves and returns; and by then every challenge is deprovisioned. */
  lemma IssueFailsClosed(env: Env, t: Trace, setup: Setup, accountUrl: Option<string>, values: seq<Value>)
    requires Successes(env.world, t) == Cleaned(t)
    ensures var ending := IssueRun(env, t, setup, accountUrl, values);
            && t <= ending.trace
            && (ending.leaf.Some? ==> ForRequest(ending.leaf.value, values, setup.certKey))
            && AllSavedForRequest(ending.trace, |t|, values, setup.certKey)
            && (!NothingKept(ending.trace, |t|) ==>
                  exists k, leaf :: ConcludedAt(env.world, setup, values, ending.trace, |t|, k, leaf))
  {
    hide Solving, Books, AllJustified, Plan, OpenAccount, Fulfil, ConcludedAt, Successes, Cleaned, ForRequest,
      NothingKept, IdentifiersOfValues, AllSavedForRequest;
    BooksClosed(env.world, t);
    NothingYet(t, values, setup.certKey);
    NothingSaved(t, |t|, values, setup.certKey);
    if Plan(setup, values).Some? {
      PlannedNotEmpty(setup, values);
      PlannedFailsClosed(env, t, setup, accountUrl, values, Plan(setup, values).value);
    }
  }

  lemma PlannedFailsClosed(env: Env, t: Trace, setup: Setup, accountUrl: Option<string>, values: seq<Value>,
                           routes: RouteMap)
    requires Plan(setup, values) == Some(routes) && values != [] && Books(env.world, t, [])
    ensures var ending := IssueRun(env, t, setup, accountUrl, values);
            && t <= ending.trace
            && (ending.leaf.Some? ==> ForRequest(ending.leaf.value, values, setup.certKey))
            && AllSavedForRequest(ending.trace, |t|, values, setup.certKey)
            && (!NothingKept(ending.trace, |t|) ==>
                  exists k, leaf :: ConcludedAt(env.world, setup, values, ending.trace, |t|, k, leaf))
  {
    hide Solving, Books, AllJustified, Plan, OpenAccount, Fulfil, ConcludedAt, ForRequest, NothingKept,
      IdentifiersOfValues, AllSavedForRequest;
    StartSolving(env.world, routes, t);
    var (t1, account) := OpenAccount(env.world, t, setup, accountUrl, values);
    OpenAccountSafe(env.world, routes, t, setup, accountUrl, values, |t|);
    SolvingMeans(env.world, routes, t1, |t|);
    OpenAccountGrows(env.world, t, setup, accountUrl, values);
    NothingSaved(t1, |t|, values, setup.certKey);
    if account.Some? {
      var body := OrderBody(IdentifiersOfValues(values));
      var t2 := t1 + [Send(setup.newOrder, body)];
      SolvingSend(env.world, routes, t1, |t|, [], setup.newOrder, body);
      SolvingMeans(env.world, routes, t2, |t|);
      NothingSaved(t2, |t|, values, setup.certKey);
      if env.world(t2).OrderAt? {
        FulfilFailsClosed(env, setup, account, values, routes, t2, env.world(t2).url, env.world(t2).order, |t|);
      }
    }
  }

  lemma NothingYet(t: Trace, values: seq<Value>, key: PublicKey)
    ensures NothingKept(t, |t|)
  {
  }

  lemma NothingSaved(t: Trace, from: nat, values: seq<Value>, key: PublicKey)
    requires NothingKept(t, from)
    ensures AllSavedForRequest(t, from, values, key)
  {
    hide ForRequest;
  }

  lemma OpenAccountGrows(world: World, t: Trace, setup: Setup, accountUrl: Option<string>, values: seq<Value>)
    ensures t <= OpenAccount(world, t, setup, accountUrl, values).0
  {
    hide DnsTexts;
  }

  lemma FulfilFailsClosed(env: Env, setup: Setup, account: Option<string>, values: seq<Value>, routes: RouteMap,
                          t: Trace, url: string, order: OrderView, from: nat)
    requires values != [] && from <= |t| && Solving(env.world, routes, t, from, [])
    ensures var ending := Fulfil(env, setup, account, values, routes, t, url, order);
            && t <= ending.trace
            && (ending.leaf.Some? ==> ForRequest(ending.leaf.value, values, setup.certKey))
            && AllSavedForRequest(ending.trace, from, values, setup.certKey)
            && (!NothingKept(ending.trace, from) ==>
                  exists k, leaf :: ConcludedAt(env.world, setup, values, ending.trace, from, k, leaf))
  {
    hide Solving, Books, Tidied, Accounted, Fulfil, CleanedUp, Conclude, Successes, Cleaned, ForRequest, NothingKept,
      AllSavedForRequest, ConcludedAt, Quiet;
    FulfilEnds(env, setup, account, values, routes, t, url, order);
    CleanedUpSafe(env, setup, values, routes, t, url, order, from);
    var (ended, cleaned, leaf) := CleanedUp(env, setup, values, routes, t, url, order);
    CleanedUpLeaf(env, setup, values, routes, t, url, order);
    var left :| Tidied(env.world, routes, ended, from, left);
    TidiedIsAccounted(env.world, routes, ended, from, left);
    NothingSaved(ended, from, values, setup.certKey);
    if leaf.Some? {
      SolvingMeans(env.world, routes, ended, from);
      BooksClosed(env.world, ended);
      ConcludeClosed(env.world, setup, values, ended, from, leaf.value);
    }
  }

  lemma ConcludeClosed(world: World, setup: Setup, values: seq<Value>, cleaned: Trace, from: nat, leaf: Certificate)
    requires from <= |cleaned| && NothingKept(cleaned, from) && Successes(world, cleaned) == Cleaned(cleaned)
    requires ForRequest(leaf, values, setup.certKey)
    ensures var (after, result) := Conclude(world, cleaned, setup, leaf, values);
            && cleaned <= after && (result.Some? ==> result.value == leaf)
            && AllSavedForRequest(after, from, values, setup.certKey)
            && ConcludedAt(world, setup, values, after, from, |cleaned|, leaf)
  {
    hide Conclude, Successes, Cleaned, ForRequest, NothingKept;
    ConcludeKeeps(world, cleaned, setup, leaf, values);
    NothingSaved(cleaned, from, values, setup.certKey);
    var after := Conclude(world, cleaned, setup, leaf, values).0;
    assert after[..|cleaned|] == cleaned;
  }

  lemma CleanedUpLeaf(env: Env, setup: Setup, values: seq<Value>, routes: RouteMap, t: Trace, url: string,
                      order: OrderView)
    requires values != []
    ensures var (ended, cleaned, leaf) := CleanedUp(env, setup, values, routes, t, url, order);
            t <= ended && (leaf.Some? ==> ForRequest(leaf.value, values, setup.certKey))
  {
    hide FetchAll, Attempt, AcceptLeaf, ForRequest, CleanUp, GeneratedCsr;
    var (t1, authzs) := FetchAll(env.world, t, order.authorizations, []);
    FetchAllSends(env.world, t, order.authorizations, []);
    if authzs.Some? {
      var csr := GeneratedCsr(setup.certKey, values);
      var (t2, provisioned, chain) := Attempt(env, t1, url, authzs.value, routes, csr);
      AttemptGrows(env, t1, url, authzs.value, routes, csr);
      CleanUpGrows(env.world, t2, provisioned);
      if chain.Some? { AcceptedIsForRequest(chain.value, values, setup.certKey); }
    }
  }

  lemma {:induction false} SolveGrows(world: World, t: Trace, authzs: seq<Fetched>, routes: RouteMap,
                                      open: seq<Prepared>)
    ensures t <= Solve(world, t, authzs, routes, open).0
    decreases |authzs|
  {
    hide Choose;
    if authzs != [] && Choose(authzs[0].authz, routes).Some? {
      var (prepared, url) := Choose(authzs[0].authz, routes).value;
      var called := t + [Provision(prepared)];
      var sent := called + [Send(url, ReadyBody)];
      if !Fails(world(called)) && !Fails(world(sent)) {
        SolveGrows(world, sent, authzs[1..], routes, open + [prepared]);
      }
    }
  }

  lemma AttemptGrows(env: Env, t: Trace, url: string, authzs: seq<Fetched>, routes: RouteMap, csr: Option<Csr>)
    ensures t <= Attempt(env, t, url, authzs, routes, csr).0
  {
    hide Solve, PollAuthzs, Obtain;
    SolveGrows(env.world, t, authzs, routes, []);
    var (t1, provisioned, solved) := Solve(env.world, t, authzs, routes, []);
    PollAuthzsSends(env, t1, authzs);
    ObtainSends(env, PollAuthzs(env, t1, authzs).0, url, csr);
  }

  lemma {:induction false} CleanUpGrows(world: World, t: Trace, provisioned: seq<Prepared>)
    ensures t <= CleanUp(world, t, provisioned).0
    decreases |provisioned|
  {
    if provisioned != [] { CleanUpGrows(world, t + [Deprovision(provisioned[0])], provisioned[1..]); }
  }

  // ---------------------------------------------------------------- what the routes are

  /** The last entry of the challenge map for this key. */
  predicate LastEntry(list: seq<Override>, key: Key, k: nat) {
    && k < |list| && KeyOfValue(list[k].value) == key
    && forall j :: k < j < |list| ==> KeyOfValue(list[j].value) != key
  }

  /** The last of the requested values with this key. */
  predicate LastValue(values: seq<Value>, key: Key, i: nat) {
    && i < |values| && KeyOfValue(values[i]) == key
    && forall j :: i < j < |values| ==> KeyOfValue(values[j]) != key
  }

  predicate NoEntry(list: seq<Override>, key: Key) {
    forall k :: 0 <= k < |list| ==> KeyOfValue(list[k].value) != key
  }

  /** The configuration a requested identifier is routed by: the last entry of the challenge
      map with its typed key, or else the client's default. */
  predicate RouteConfigured(setup: Setup, value: Value, route: Route) {
    && route.domain == ValueText(value)
    && var list := setup.challengeMap;
       || (exists k :: 0 <= k < |list| && LastEntry(list, KeyOfValue(value), k)
             && route.kind == list[k].kind && route.handler == list[k].handler)
       || (NoEntry(list, KeyOfValue(value))
           && setup.defaultHandler == Some(route.handler) && route.kind == setup.challengeType)
  }

  /** The dictionary of overrides holds the last entry for each key. */
  lemma {:induction false} OverridesLast(list: seq<Override>, key: Key)
    requires Overrides(list).Some?
    ensures key in Overrides(list).value ==>
              exists k :: 0 <= k < |list| && LastEntry(list, key, k) && Overrides(list).value[key] == list[k]
    ensures key !in Overrides(list).value ==> NoEntry(list, key)
  {
    hide KeyOfValue, ValidValue;
    if list != [] {
      var front, last := list[..|list| - 1], list[|list| - 1];
      OverridesLast(front, key);
      if KeyOfValue(last.value) == key {
        assert LastEntry(list, key, |list| - 1);
      } else if key in Overrides(front).value {
        var k :| 0 <= k < |front| && LastEntry(front, key, k) && Overrides(front).value[key] == front[k];
        assert LastEntry(list, key, k);
      }
    }
  }

  /** Exactly the requested identifiers have routes, each one configured for the last value
      with its key, of a type its identifier can use. */
  lemma PlannedRoutes(setup: Setup, values: seq<Value>, key: Key)
    requires Plan(setup, values).Some?
    ensures key in Plan(setup, values).value <==> key in KeysOfValues(values)
    ensures key in Plan(setup, values).value ==>
              exists i :: 0 <= i < |values| && LastValue(values, key, i)
                && RouteConfigured(setup, values[i], Plan(setup, values).value[key])
                && Compatible(values[i], Plan(setup, values).value[key].kind)
  {
    hide RouteConfigured, Compatible, KeyOfValue, ValidValues, Overrides, Effective;
    var overrides := Overrides(setup.challengeMap).value;
    var routes := Plan(setup, values).value;
    if key in KeysOfValues(values) {
      var i :| 0 <= i < |values| && KeyOfValue(values[i]) == key;
      EffectiveHas(setup, overrides, values, i);
    }
    if key in routes {
      EffectiveConfigured(setup, overrides, values, key);
    }
  }

  lemma {:induction false} EffectiveConfigured(setup: Setup, overrides: map<Key, Override>, values: seq<Value>,
                                               key: Key)
    requires Overrides(setup.challengeMap) == Some(overrides) && Effective(setup, overrides, values).Some?
    requires key in Effective(setup, overrides, values).value
    ensures exists i :: 0 <= i < |values| && LastValue(values, key, i)
              && RouteConfigured(setup, values[i], Effective(setup, overrides, values).value[key])
  {
    hide KeyOfValue, ValueText, Overrides, RouteConfigured, RouteFor;
    var front, last := values[..|values| - 1], values[|values| - 1];
    RouteForConfigured(setup, overrides, last);
    if key == KeyOfValue(last) {
      assert LastValue(values, key, |values| - 1);
    } else {
      EffectiveConfigured(setup, overrides, front, key);
      var i :| 0 <= i < |front| && LastValue(front, key, i)
               && RouteConfigured(setup, front[i], Effective(setup, overrides, front).value[key]);
      assert values[i] == front[i] && LastValue(values, key, i);
    }
  }

  lemma RouteForConfigured(setup: Setup, overrides: map<Key, Override>, value: Value)
    requires Overrides(setup.challengeMap) == Some(overrides)
    ensures RouteFor(setup, overrides, value).Some? ==>
            RouteConfigured(setup, value, RouteFor(setup, overrides, value).value)
  {
    hide KeyOfValue, ValueText, Overrides, LastEntry, NoEntry;
    OverridesLast(setup.challengeMap, KeyOfValue(value));
  }
}
