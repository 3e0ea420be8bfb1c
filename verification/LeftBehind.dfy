/** Runs of `issue` against the responder that leave something behind: a cancelled cleanup, and
    a DNS record whose wait for propagation times out. */
module LeftBehind {
  import opened Wrappers
  import opened Identifiers
  import opened CsrBinding
  import opened Routes
  import opened Acme
  import opened Renewal
  import opened AcmeSafety
  import opened IssueFlow
  import opened IssueSafety
  import opened IssueWorlds
  import opened Dns01
  import opened EndToEnd

  // ---------------------------------------------------------------- a cancelled cleanup

  /** The responder as a world in which every deprovision is cancelled. */
  function CancellingWorld(scene: Scene): World {
    (t: Trace) => if t != [] && t[|t| - 1].Deprovision? then Cancelled else ResponderWorld(scene)(t)
  }

  lemma {:induction false} NothingCleaned(t: Trace, k: nat)
    requires Cleaned(t) == [] && 0 < k <= |t|
    ensures !t[k - 1].Deprovision?
    decreases |t|
  {
    if k < |t| { NothingCleaned(t[..|t| - 1], k); }
  }

  /** Until the first deprovision the two worlds agree. */
  lemma AgreeBefore(scene: Scene, t: Trace)
    requires Cleaned(t) == []
    ensures Agree(ResponderWorld(scene), CancellingWorld(scene), t, 0)
  {
    hide ResponderWorld, Cleaned;
    forall k: nat | 0 < k <= |t| ensures ResponderWorld(scene)(t[..k]) == CancellingWorld(scene)(t[..k]) {
      NothingCleaned(t, k);
    }
  }

  lemma {:induction false} SuccessesSame(one: World, other: World, t: Trace)
    requires Agree(one, other, t, 0)
    ensures Successes(one, t) == Successes(other, t)
  {
    hide Agree;
    if t != [] {
      AgreePart(one, other, t[..|t| - 1], t, 0, 0);
      AgreeAt(one, other, t, t, 0);
      SuccessesSame(one, other, t[..|t| - 1]);
    }
  }

  /** The world cancels the first deprovision. */
  lemma FirstCancelled(scene: Scene, t: Trace, open: seq<Prepared>)
    requires OpenNow(ResponderWorld(scene), t, open) && open != []
    ensures var (after, cleaned) := CleanUp(CancellingWorld(scene), t, open);
            && !cleaned && Cleaned(after) == open[..1] && Successes(CancellingWorld(scene), after) == open
  {
    hide ResponderWorld, Cleaned, Successes, Agree;
    var called := t + [Deprovision(open[0])];
    AgreeBefore(scene, t);
    SuccessesSame(ResponderWorld(scene), CancellingWorld(scene), t);
    OneMore(CancellingWorld(scene), t, Deprovision(open[0]));
    assert open[..1] == [open[0]];
  }

  /** What `Fulfil` comes to: a failure with one of all challenges deprovisioned. */
  predicate LeavesChallenges(scene: Scene, patience: Patience, setup: Setup, account: Option<string>,
                             values: seq<Value>, routes: RouteMap, t: Trace, n: nat, order: OrderView) {
    && values != []
    && var ending :=
         Fulfil(Env(CancellingWorld(scene), patience), setup, account, values, routes, t, OrderUrl(scene.base, n),
           order);
      && ending.leaf.None? && |Successes(CancellingWorld(scene), ending.trace)| == |values|
      && |Cleaned(ending.trace)| == 1
  }

  /** A cleanup that does not get to its end ends the whole issuance there. */
  lemma StoppedInCleanUp(env: Env, setup: Setup, account: Option<string>, values: seq<Value>, routes: RouteMap,
                         t: Trace, url: string, order: OrderView)
    requires values != []
    requires var (t1, authzs) := FetchAll(env.world, t, order.authorizations, []);
             && authzs.Some?
             && var (t2, provisioned, chain) :=
                  Attempt(env, t1, url, authzs.value, routes, GeneratedCsr(setup.certKey, values));
                !CleanUp(env.world, t2, provisioned).1
    ensures var (t1, authzs) := FetchAll(env.world, t, order.authorizations, []);
            var (t2, provisioned, chain) :=
              Attempt(env, t1, url, authzs.value, routes, GeneratedCsr(setup.certKey, values));
            Fulfil(env, setup, account, values, routes, t, url, order)
            == Ending(CleanUp(env.world, t2, provisioned).0, account, None)
  {
    hide FetchAll, Attempt, CleanUp, GeneratedCsr, AcceptLeaf, Conclude;
  }

  /** After a successful attempt against the responder. */
  lemma FulfilCancelled(scene: Scene, patience: Patience, setup: Setup, account: Option<string>, values: seq<Value>,
                        routes: RouteMap, t: Trace, n: nat, after: nat, order: OrderView)
    requires FaithfulWire(scene.wire) && values != [] && ValidValues(values)
    requires OrderOpen(ServerAfter(scene, t), scene.base, n, after, IdentifiersOfValues(values))
    requires order.authorizations == AuthzUrls(scene.base, after, |values|)
    requires AllCompatible(values, routes) && forall key :: key in routes ==> !routes[key].kind.OtherType?
    requires OpenNow(ResponderWorld(scene), t, [])
    ensures LeavesChallenges(scene, patience, setup, account, values, routes, t, n, order)
  {
    hide ResponderWorld, CancellingWorld, ServerAfter, FaithfulWire, ValidValues, OrderOpen, IdentifiersOfValues,
      OrderUrl, Sends, GeneratedCsr, FetchAll, Attempt, CleanUp, AuthzUrls, AllCompatible, Placed, Cleaned, Successes,
      Fulfil, Agree;
    var one, other := ResponderWorld(scene), CancellingWorld(scene);
    Reached(scene, patience, setup, values, routes, t, n, after, order);
    var (t1, views) := FetchAll(one, t, order.authorizations, []);
    var csr := GeneratedCsr(setup.certKey, values);
    var (t2, provisioned, chain) := Attempt(Env(one, patience), t1, OrderUrl(scene.base, n), views.value, routes, csr);
    FetchAllSends(one, t, order.authorizations, []);
    AttemptGrows(Env(one, patience), t1, OrderUrl(scene.base, n), views.value, routes, csr);
    AgreeBefore(scene, t2);
    AgreePart(one, other, t1, t2, 0, |t|);
    FetchAllSame(one, other, t, order.authorizations, []);
    AgreePart(one, other, t2, t2, 0, |t1|);
    AttemptSame(one, other, patience, t1, OrderUrl(scene.base, n), views.value, routes, csr);
    FirstCancelled(scene, t2, provisioned);
    StoppedInCleanUp(Env(other, patience), setup, account, values, routes, t, OrderUrl(scene.base, n), order);
  }

  /** With n identifiers, a cleanup whose deprovisions are cancelled makes `issue` fail after
      it provisioned n challenges, of which n - 1 are never deprovisioned. */
  lemma CancelledDeprovision(scene: Scene, patience: Patience, setup: Setup, accountUrl: Option<string>,
                             values: seq<Value>)
    requires FaithfulWire(scene.wire) && Inv(scene.start)
    requires setup.newAccount == scene.base + "/new-account" && setup.newOrder == scene.base + "/new-order"
    requires Plan(setup, values).Some?
    requires forall key :: key in Plan(setup, values).value ==> !Plan(setup, values).value[key].kind.OtherType?
    ensures var ending := IssueRun(Env(CancellingWorld(scene), patience), [], setup, accountUrl, values);
            && ending.leaf.None? && |Successes(CancellingWorld(scene), ending.trace)| == |values|
            && |Cleaned(ending.trace)| == 1
  {
    hide ResponderWorld, CancellingWorld, ServerAfter, FaithfulWire, ValidValues, OrderOpen, IdentifiersOfValues,
      OrderUrl, Sends, OpenAccount, Fulfil, AuthzUrls, Plan, Inv, AllCompatible, Cleaned, Successes, Agree;
    PlanMeans(setup, values);
    Started(scene, setup, accountUrl, values);
    var one, other := ResponderWorld(scene), CancellingWorld(scene);
    var routes := Plan(setup, values).value;
    var (t1, account) := OpenAccount(one, [], setup, accountUrl, values);
    var t2 := t1 + [Send(setup.newOrder, OrderBody(IdentifiersOfValues(values)))];
    AgreeBefore(scene, t2);
    AgreePart(one, other, t1, t2, 0, 0);
    OpenAccountSame(one, other, [], setup, accountUrl, values);
    AgreeAt(one, other, t2, t2, 0);
    FulfilCancelled(scene, patience, setup, account, values, routes, t2, scene.start.orderCounter + 1,
                    scene.start.authzCounter, one(t2).order);
  }

  // ---------------------------------------------------------------- a record that is not seen in time

  /** The responder as a world in which every provision raises. */
  function TimingOutWorld(scene: Scene): World {
    (t: Trace) => if t != [] && t[|t| - 1].Provision? then Raised else ResponderWorld(scene)(t)
  }

  /** The handler creates every record, and every wait for one raises. */
  ghost predicate TimesOut(h: Tracker) {
    forall t :: h.outcome(t) == CreatedOnly
  }

  predicate NoProvision(t: Trace) {
    forall i :: 0 <= i < |t| ==> !t[i].Provision?
  }

  lemma {:induction false} NothingProvisioned(scene: Scene, t: Trace)
    requires Successes(ResponderWorld(scene), t) == []
    ensures NoProvision(t)
  {
    hide Exchange, ServerAfter;
    if t != [] {
      NothingProvisioned(scene, t[..|t| - 1]);
      forall i | 0 <= i < |t| ensures !t[i].Provision? {
        if i < |t| - 1 { assert t[..|t| - 1][i] == t[i]; }
      }
    }
  }

  /** Until the first provision the two worlds agree. */
  lemma AgreeUnprovisioned(scene: Scene, t: Trace)
    requires NoProvision(t)
    ensures Agree(ResponderWorld(scene), TimingOutWorld(scene), t, 0)
  {
    hide ResponderWorld;
  }

  lemma {:induction false} NothingTracked(h: Tracker, t: Trace)
    requires NoProvision(t)
    ensures Tracked(h, t) == map[]
  {
    if t != [] { NothingTracked(h, t[..|t| - 1]); }
  }

  lemma ChosenHandler(authz: Authorization, routes: RouteMap, handler: Handler)
    requires Choose(authz, routes).Some? && forall key :: key in routes ==> routes[key].handler == handler
    ensures Choose(authz, routes).value.0.handler == handler
  {
    hide Claim, FindOffer;
  }

  /** The loop stops at the first provision, whose record stays tracked. */
  lemma FirstTimesOut(scene: Scene, h: Tracker, t: Trace, views: seq<Fetched>, routes: RouteMap)
    requires NoProvision(t) && TimesOut(h) && FirstChosen(views, routes)
    requires forall key :: key in routes ==> routes[key].handler == h.handler
    ensures var (after, provisioned, solved) := Solve(TimingOutWorld(scene), t, views, routes, []);
            && !solved && provisioned == [] && Cleaned(after) == Cleaned(t) && |Tracked(h, after)| == 1
  {
    hide ResponderWorld, Choose, Successes, Cleaned, Tracked;
    var (prepared, url) := Choose(views[0].authz, routes).value;
    var called := t + [Provision(prepared)];
    assert called[|called| - 1] == Provision(prepared);
    ChosenHandler(views[0].authz, routes, h.handler);
    NothingTracked(h, t);
    TrackedProvision(h, t, prepared);
    OneMore(TimingOutWorld(scene), t, Provision(prepared));
    assert Tracked(h, called).Keys == {SlotOf(prepared)};
    OneKey(Tracked(h, called), SlotOf(prepared));
  }

  lemma OneKey(records: Records, slot: Slot)
    requires records.Keys == {slot}
    ensures |records| == 1
  {
    assert |records| == |records.Keys|;
  }

  predicate FirstChosen(views: seq<Fetched>, routes: RouteMap) {
    views != [] && Choose(views[0].authz, routes).Some?
  }

  /** The authorizations are fetched as they are from the responder. */
  lemma FetchedUnprovisioned(scene: Scene, values: seq<Value>, routes: RouteMap, t: Trace, n: nat, after: nat)
    returns (t1: Trace, views: seq<Fetched>)
    requires FaithfulWire(scene.wire) && values != [] && ValidValues(values)
    requires OrderOpen(ServerAfter(scene, t), scene.base, n, after, IdentifiersOfValues(values))
    requires AllCompatible(values, routes) && forall key :: key in routes ==> !routes[key].kind.OtherType?
    requires OpenNow(ResponderWorld(scene), t, [])
    ensures FetchAll(TimingOutWorld(scene), t, AuthzUrls(scene.base, after, |values|), []) == (t1, Some(views))
    ensures NoProvision(t1) && Cleaned(t1) == [] && FirstChosen(views, routes)
  {
    hide ResponderWorld, TimingOutWorld, ServerAfter, FaithfulWire, ValidValues, OrderOpen, IdentifiersOfValues, Sends,
      FetchAll, AuthzUrls, AllCompatible, AllViews, ViewsOf, Choose, Known, Cleaned, Successes, Agree, NoProvision,
      OnlySends, Reads, KeyOfValue, SolvedUrl, Compatible;
    var one, other := ResponderWorld(scene), TimingOutWorld(scene);
    var s, urls := ServerAfter(scene, t), AuthzUrls(scene.base, after, |values|);
    FetchedViews(s, scene.base, n, after, values, routes);
    views := AllViews(s, scene.base, after, |values|);
    AllFetched(scene, t, after, |values|, 0);
    assert urls[0..] == urls && views[..0] == [];
    t1 := FetchAll(one, t, urls, []).0;
    FetchAllSends(one, t, urls, []);
    SendsKeepOpen(one, t, t1, []);
    NothingProvisioned(scene, t1);
    AgreeUnprovisioned(scene, t1);
    AgreePart(one, other, t1, t1, 0, |t|);
    FetchAllSame(one, other, t, urls, []);
    ViewAtK(views, scene.base, after, values, routes, 0);
  }

  /** What `Fulfil` comes to: a failure that leaves one record tracked. */
  predicate LeavesRecord(scene: Scene, h: Tracker, patience: Patience, setup: Setup, account: Option<string>,
                         values: seq<Value>, routes: RouteMap, t: Trace, n: nat, order: OrderView) {
    && values != []
    && var ending :=
         Fulfil(Env(TimingOutWorld(scene), patience), setup, account, values, routes, t, OrderUrl(scene.base, n),
           order);
      ending.leaf.None? && Cleaned(ending.trace) == [] && |Tracked(h, ending.trace)| == 1
  }

  /** A loop that stops at its first provision ends the whole issuance there. */
  lemma StoppedAtFirst(env: Env, setup: Setup, account: Option<string>, values: seq<Value>, routes: RouteMap, t: Trace,
                       url: string, order: OrderView, t1: Trace, views: seq<Fetched>, after: Trace)
    requires values != [] && FetchAll(env.world, t, order.authorizations, []) == (t1, Some(views))
    requires Solve(env.world, t1, views, routes, []) == (after, [], false)
    ensures Fulfil(env, setup, account, values, routes, t, url, order) == Ending(after, account, None)
  {
    hide FetchAll, Solve, PollAuthzs, Obtain, GeneratedCsr, AcceptLeaf, Conclude;
  }

  lemma FulfilTimesOut(scene: Scene, h: Tracker, patience: Patience, setup: Setup, account: Option<string>,
                       values: seq<Value>, routes: RouteMap, t: Trace, n: nat, after: nat, order: OrderView)
    requires FaithfulWire(scene.wire) && values != [] && ValidValues(values) && TimesOut(h)
    requires OrderOpen(ServerAfter(scene, t), scene.base, n, after, IdentifiersOfValues(values))
    requires order.authorizations == AuthzUrls(scene.base, after, |values|)
    requires AllCompatible(values, routes)
    requires forall key :: key in routes ==> !routes[key].kind.OtherType? && routes[key].handler == h.handler
    requires OpenNow(ResponderWorld(scene), t, [])
    ensures LeavesRecord(scene, h, patience, setup, account, values, routes, t, n, order)
  {
    hide ResponderWorld, TimingOutWorld, ServerAfter, FaithfulWire, ValidValues, OrderOpen, IdentifiersOfValues,
      OrderUrl, Sends, GeneratedCsr, FetchAll, Solve, AuthzUrls, AllCompatible, Choose, Cleaned, NoProvision, TimesOut,
      Tracked, OpenNow, Fulfil, FirstChosen;
    var t1, views := FetchedUnprovisioned(scene, values, routes, t, n, after);
    FirstTimesOut(scene, h, t1, views, routes);
    var stopped := Solve(TimingOutWorld(scene), t1, views, routes, []).0;
    StoppedAtFirst(Env(TimingOutWorld(scene), patience), setup, account, values, routes, t, OrderUrl(scene.base, n),
                   order, t1, views, stopped);
  }

  /** With a DNS handler whose wait for propagation times out, `issue` against the responder
      fails and the record it created stays: it is still tracked and is never removed. */
  lemma TimedOutRecord(scene: Scene, h: Tracker, patience: Patience, setup: Setup, accountUrl: Option<string>,
                       values: seq<Value>)
    requires FaithfulWire(scene.wire) && Inv(scene.start) && TimesOut(h)
    requires setup.newAccount == scene.base + "/new-account" && setup.newOrder == scene.base + "/new-order"
    requires Plan(setup, values).Some?
    requires var routes := Plan(setup, values).value;
             forall key :: key in routes ==> !routes[key].kind.OtherType? && routes[key].handler == h.handler
    ensures Behaves(TimingOutWorld(scene), h)
    ensures var ending := IssueRun(Env(TimingOutWorld(scene), patience), [], setup, accountUrl, values);
            ending.leaf.None? && Cleaned(ending.trace) == [] && |Tracked(h, ending.trace)| == 1
  {
    hide ResponderWorld, ServerAfter, FaithfulWire, ValidValues, OrderOpen, IdentifiersOfValues, OrderUrl, Sends,
      OpenAccount, Fulfil, AuthzUrls, Plan, Inv, AllCompatible, Cleaned, Successes, Agree, Tracked, NoProvision;
    PlanMeans(setup, values);
    Started(scene, setup, accountUrl, values);
    var one, other := ResponderWorld(scene), TimingOutWorld(scene);
    var routes := Plan(setup, values).value;
    var (t1, account) := OpenAccount(one, [], setup, accountUrl, values);
    var t2 := t1 + [Send(setup.newOrder, OrderBody(IdentifiersOfValues(values)))];
    NothingProvisioned(scene, t2);
    AgreeUnprovisioned(scene, t2);
    AgreePart(one, other, t1, t2, 0, 0);
    OpenAccountSame(one, other, [], setup, accountUrl, values);
    AgreeAt(one, other, t2, t2, 0);
    FulfilTimesOut(scene, h, patience, setup, account, values, routes, t2, scene.start.orderCounter + 1,
                   scene.start.authzCounter, one(t2).order);
  }

  // ---------------------------------------------------------------- a deletion that raises

  /** The responder as a world in which every deprovision raises. */
  function RefusingWorld(scene: Scene): World {
    (t: Trace) => if t != [] && t[|t| - 1].Deprovision? then Raised else ResponderWorld(scene)(t)
  }

  lemma AgreeWithout(scene: Scene, t: Trace, from: nat)
    requires forall i :: from <= i < |t| ==> !t[i].Deprovision?
    ensures Agree(ResponderWorld(scene), RefusingWorld(scene), t, from)
  {
    hide ResponderWorld;
  }

  /** The cleanup does not look at ordinary failures. */
  lemma {:induction false} CleanUpAlike(scene: Scene, t: Trace, open: seq<Prepared>)
    ensures CleanUp(RefusingWorld(scene), t, open) == CleanUp(ResponderWorld(scene), t, open)
    decreases |open|
  {
    hide Exchange, ServerAfter;
    if open != [] { CleanUpAlike(scene, t + [Deprovision(open[0])], open[1..]); }
  }

  lemma ConcludeAlike(scene: Scene, t: Trace, setup: Setup, leaf: Certificate, values: seq<Value>)
    ensures Conclude(RefusingWorld(scene), t, setup, leaf, values) ==
            Conclude(ResponderWorld(scene), t, setup, leaf, values)
  {
    hide ResponderWorld, RefusingWorld, Conclude, Announcements, Agree;
    ConcludeAnnounces(ResponderWorld(scene), t, setup, leaf, values);
    AnnouncementsQuiet(setup, leaf, values);
    ConcludeKeeps(ResponderWorld(scene), t, setup, leaf, values);
    var after := Conclude(ResponderWorld(scene), t, setup, leaf, values).0;
    forall i | |t| <= i < |after| ensures !after[i].Deprovision? {
      assert after[i] == Announcements(setup, leaf, values)[i - |t|];
    }
    AgreeWithout(scene, after, |t|);
    ConcludeSame(ResponderWorld(scene), RefusingWorld(scene), t, setup, leaf, values);
  }

  lemma FulfilAlike(scene: Scene, patience: Patience, setup: Setup, account: Option<string>, values: seq<Value>,
                    routes: RouteMap, t: Trace, url: string, order: OrderView)
    requires values != [] && NoDeprovision(t) && Provisioned(ResponderWorld(scene), t)
    ensures Fulfil(Env(RefusingWorld(scene), patience), setup, account, values, routes, t, url, order) ==
            Fulfil(Env(ResponderWorld(scene), patience), setup, account, values, routes, t, url, order)
  {
    hide ResponderWorld, RefusingWorld, FetchAll, Attempt, CleanUp, AcceptLeaf, Conclude, OnlySends, GeneratedCsr,
      Agree, NoDeprovision, Provisioned;
    var one, other, env := ResponderWorld(scene), RefusingWorld(scene), Env(ResponderWorld(scene), patience);
    var csr := GeneratedCsr(setup.certKey, values);
    var (t1, views) := FetchAll(one, t, order.authorizations, []);
    FetchAllSends(one, t, order.authorizations, []);
    SendsPhase(one, t, t1);
    ProvisionedLater(one, t, t1);
    WithoutMeans(t1);
    AgreeWithout(scene, t1, |t|);
    FetchAllSame(one, other, t, order.authorizations, []);
    if views.Some? {
      AttemptPhase(env, t1, url, views.value, routes, csr);
      var (t2, provisioned, chain) := Attempt(env, t1, url, views.value, routes, csr);
      WithoutMeans(t2);
      AgreeWithout(scene, t2, |t1|);
      AttemptSame(one, other, patience, t1, url, views.value, routes, csr);
      CleanUpAlike(scene, t2, provisioned);
      var (t3, cleaned) := CleanUp(one, t2, provisioned);
      if chain.Some? && AcceptLeaf(chain.value, values, setup.certKey).Some? {
        ConcludeAlike(scene, t3, setup, AcceptLeaf(chain.value, values, setup.certKey).value, values);
      }
    }
  }

  lemma WithoutMeans(t: Trace)
    requires NoDeprovision(t)
    ensures forall i :: 0 <= i < |t| ==> !t[i].Deprovision?
  {
  }

  /** Deprovisions that raise change nothing of the run. */
  lemma IssueAlike(scene: Scene, patience: Patience, setup: Setup, accountUrl: Option<string>, values: seq<Value>)
    ensures IssueRun(Env(RefusingWorld(scene), patience), [], setup, accountUrl, values) ==
            IssueRun(Env(ResponderWorld(scene), patience), [], setup, accountUrl, values)
  {
    hide ResponderWorld, RefusingWorld, Plan, OpenAccount, Fulfil, IdentifiersOfValues, Agree, NoDeprovision,
      Provisioned, OnlySends;
    PlannedNotEmpty(setup, values);
    if Plan(setup, values).Some? {
      var one, other := ResponderWorld(scene), RefusingWorld(scene);
      OpenAccountPhase(one, setup, accountUrl, values);
      var (t1, account) := OpenAccount(one, [], setup, accountUrl, values);
      var body := OrderBody(IdentifiersOfValues(values));
      var t2 := t1 + [Send(setup.newOrder, body)];
      OneSend(t1, setup.newOrder, body);
      SendsPhase(one, t1, t2);
      ProvisionedLater(one, t1, t2);
      WithoutMeans(t2);
      AgreeWithout(scene, t2, 0);
      AgreePart(one, other, t1, t2, 0, 0);
      OpenAccountSame(one, other, [], setup, accountUrl, values);
      AgreeAt(one, other, t2, t2, 0);
      if account.Some? && one(t2).OrderAt? {
        FulfilAlike(scene, patience, setup, account, values, Plan(setup, values).value, t2, one(t2).url, one(t2).order);
      }
    }
  }

  lemma {:induction false} SuccessWasProvisioned(world: World, t: Trace) returns (i: nat)
    requires Successes(world, t) != []
    ensures i < |t| && t[i].Provision? && t[i].prepared in Successes(world, t)
  {
    var front, last := t[..|t| - 1], t[|t| - 1];
    if last.Provision? && !Fails(world(t)) {
      i := |t| - 1;
    } else {
      i := SuccessWasProvisioned(world, front);
    }
  }

  /** Every deletion the handler asks for raises, and every provision succeeds. */
  ghost predicate NeverDeletes(h: Tracker) {
    forall t :: h.outcome(t) == Visible && !h.deletes(t)
  }

  lemma {:induction false} NoneDeleted(h: Tracker, t: Trace)
    requires NeverDeletes(h)
    ensures Deleted(h, t) == {}
  {
    if t != [] { NoneDeleted(h, t[..|t| - 1]); }
  }

  /** A provider whose deletions raise does not stop `issue` from succeeding; the handler then
      tracks nothing, and the records are still at the provider. */
  lemma UndeletedRecord(scene: Scene, h: Tracker, patience: Patience, setup: Setup, accountUrl: Option<string>,
                        values: seq<Value>)
    requires FaithfulWire(scene.wire) && Inv(scene.start) && NeverDeletes(h)
    requires setup.newAccount == scene.base + "/new-account" && setup.newOrder == scene.base + "/new-order"
    requires Plan(setup, values).Some? && CommonNameFits(values)
    requires var routes := Plan(setup, values).value;
             forall key :: key in routes ==> !routes[key].kind.OtherType? && routes[key].handler == h.handler
    ensures Behaves(RefusingWorld(scene), h)
    ensures var ending := IssueRun(Env(RefusingWorld(scene), patience), [], setup, accountUrl, values);
            && ending.leaf.Some? && Tracked(h, ending.trace) == map[] && Provided(h, ending.trace) != {}
  {
    hide ResponderWorld, FaithfulWire, Inv, Plan, Sends, Successes, Cleaned, RunRequests, NamesOf, Tracked, Provided,
      IssueRun, Deleted, Created, RecordsOf, ValueText;
    var env := Env(RefusingWorld(scene), patience);
    RefusingBehaves(scene, h);
    IssueSucceeds(scene, patience, setup, accountUrl, values);
    IssueAlike(scene, patience, setup, accountUrl, values);
    ProviderAfterIssue(env, h, setup, accountUrl, values);
    var t := IssueRun(env, [], setup, accountUrl, values).trace;
    NoneDeleted(h, t);
    SomethingCreated(scene, h, patience, setup, accountUrl, values);
  }

  lemma RefusingBehaves(scene: Scene, h: Tracker)
    requires NeverDeletes(h)
    ensures Behaves(RefusingWorld(scene), h)
  {
    hide RefusingWorld;
    forall t: Trace | t != [] && t[|t| - 1].Provision? && t[|t| - 1].prepared.handler == h.handler
      ensures Fails(RefusingWorld(scene)(t)) <==> h.outcome(t) != Visible
    {
      ProvisionDone(scene, t);
      assert h.outcome(t) == Visible;
    }
  }

  lemma ProvisionDone(scene: Scene, t: Trace)
    requires t != [] && t[|t| - 1].Provision?
    ensures RefusingWorld(scene)(t) == Answer.Done
  {
    hide Exchange, ServerAfter;
    assert ResponderWorld(scene)(t) == Answer.Done;
  }

  lemma SomethingCreated(scene: Scene, h: Tracker, patience: Patience, setup: Setup, accountUrl: Option<string>,
                         values: seq<Value>)
    requires Plan(setup, values).Some?
    requires forall key :: key in Plan(setup, values).value ==> Plan(setup, values).value[key].handler == h.handler
    requires var ending := IssueRun(Env(RefusingWorld(scene), patience), [], setup, accountUrl, values);
             ending.leaf.Some? && Cleaned(ending.trace) != []
    ensures var t := IssueRun(Env(RefusingWorld(scene), patience), [], setup, accountUrl, values).trace;
            RecordsOf(h, Created(RefusingWorld(scene), h, t)) != {}
  {
    hide RefusingWorld, Plan, IssueRun, Successes, Cleaned, Heard, ChosenFor, Abandoned;
    var env := Env(RefusingWorld(scene), patience);
    var t := IssueRun(env, [], setup, accountUrl, values).trace;
    SuccessClean(env, setup, accountUrl, values);
    NothingCalled(env.world);
    IssueBalanced(env, [], setup, accountUrl, values);
    var i := SuccessWasProvisioned(env.world, t);
    assert ProvisionJustified(env.world, Plan(setup, values).value, t, i);
    var authz :| Heard(env.world, t[..i], authz) && ChosenFor(authz, Plan(setup, values).value, t[i].prepared);
    ChosenIsRouted(authz, Plan(setup, values).value, t[i].prepared, h.handler);
    assert SlotOf(t[i].prepared) in Created(env.world, h, t);
    assert h.recordOf(SlotOf(t[i].prepared)) in RecordsOf(h, Created(env.world, h, t));
  }

  lemma ChosenIsRouted(authz: Authorization, routes: RouteMap, prepared: Prepared, handler: Handler)
    requires ChosenFor(authz, routes, prepared) && forall key :: key in routes ==> routes[key].handler == handler
    ensures prepared.handler == handler
  {
    hide Choose;
    ChosenHandler(authz, routes, handler);
  }
}
