/** A server that is still processing the order when it answers the finalization: `issue` polls
    until the order is valid, and otherwise does what it does with a server that answers at once. */
module SlowOrders {
  import opened Wrappers
  import opened Identifiers
  import opened CsrBinding
  import opened Routes
  import opened Acme
  import opened Polling
  import opened Renewal
  import opened IssueFlow
  import opened IssueSafety
  import opened IssueWorlds
  import opened EndToEnd
  import AcmeSafety
  import Jose
  import Json
  import Text

  // ---------------------------------------------------------------- the slow server

  predicate IsCsr(effect: Effect) {
    effect.Send? && effect.body.CsrBody?
  }

  predicate NoCsr(t: Trace) {
    forall k :: 0 <= k < |t| ==> !IsCsr(t[k])
  }

  /** Where the history has its first CSR. */
  function FirstCsr(t: Trace): (first: Option<nat>)
    ensures first.None? <==> NoCsr(t)
    ensures first.Some? ==> first.value < |t| && IsCsr(t[first.value]) && NoCsr(t[..first.value])
  {
    if t == [] then None
    else
      var n := |t| - 1;
      match FirstCsr(t[..n])
      case Some(i) => assert t[..n][..i] == t[..i]; Some(i)
      case None => if IsCsr(t[n]) then Some(n) else None
  }

  /** The URL of the order placed in this history. */
  function PlacedUrl(world: World, t: Trace): Option<string> {
    if t == [] then None
    else
      var last := t[|t| - 1];
      match PlacedUrl(world, t[..|t| - 1])
      case Some(url) => Some(url)
      case None => if last.Send? && last.body.OrderBody? && world(t).OrderAt? then Some(world(t).url) else None
  }

  /** What the slow server answers: to the finalization and to the next m - 1 polls of the order,
      that the order is processing, to the m-th poll what the other server answered to the
      finalization, and from then on what that server would without the polls. */
  function SlowAnswer(world: World, m: nat, t: Trace): Answer {
    match FirstCsr(t)
    case None => world(t)
    case Some(i) =>
      var sent, since := t[..i + 1], t[i + 1..];
      if !world(sent).OrderIs? then world(t)
      else if 0 < |since| <= m && since[|since| - 1] != PollOf(world, sent) then Raised
      else if |since| < m then OrderIs(world(sent).order.(status := OrderProcessing))
      else world(sent + since[m..])
  }

  function PollOf(world: World, sent: Trace): Effect {
    match PlacedUrl(world, sent)
    case Some(url) => Send(url, EmptyBody)
    case None => Send("", EmptyBody)
  }

  function Slow(world: World, m: nat): World {
    (t: Trace) => SlowAnswer(world, m, t)
  }

  /** A server whose finalized orders are valid at once. */
  ghost predicate AtOnce(world: World) {
    forall t: Trace, url: string, csr: Csr ::
      var answer := world(t + [Send(url, CsrBody(csr))]); answer.OrderIs? ==> answer.order.status == OrderValid
  }

  // ---------------------------------------------------------------- histories

  function PollsOf(url: string, m: nat): Trace {
    seq(m, _ => Send(url, EmptyBody))
  }

  /** The history with polls put in after its first calls. */
  function Stretched(t: Trace, at: nat, polls: Trace): Trace
    requires at <= |t|
  {
    t[..at] + polls + t[at..]
  }

  lemma StretchedMore(t: Trace, at: nat, polls: Trace, effect: Effect)
    requires at <= |t|
    ensures Stretched(t, at, polls) + [effect] == Stretched(t + [effect], at, polls)
  {
  }

  lemma FirstCsrIs(t: Trace, i: nat)
    requires i < |t| && IsCsr(t[i]) && NoCsr(t[..i])
    ensures FirstCsr(t) == Some(i)
  {
    hide IsCsr;
  }

  lemma PlacedLater(world: World, t: Trace, more: Trace)
    requires PlacedUrl(world, t).Some?
    ensures PlacedUrl(world, t + more) == PlacedUrl(world, t)
  {
    if more == [] {
      assert t + more == t;
    } else {
      assert (t + more)[..|t + more| - 1] == t + more[..|more| - 1];
      PlacedLater(world, t, more[..|more| - 1]);
    }
  }

  lemma PlacedPrefix(world: World, t: Trace, after: Trace)
    requires PlacedUrl(world, t).Some? && t <= after
    ensures PlacedUrl(world, after) == PlacedUrl(world, t)
  {
    hide PlacedUrl;
    PlacedLater(world, t, after[|t|..]);
    assert t + after[|t|..] == after;
  }

  lemma NoCsrJoin(t: Trace, after: Trace)
    requires NoCsr(t) && t <= after && forall k :: |t| <= k < |after| ==> !IsCsr(after[k])
    ensures NoCsr(after)
  {
    hide IsCsr;
    forall k | 0 <= k < |after| ensures !IsCsr(after[k]) {
      if k < |t| { assert after[k] == t[k]; }
    }
  }

  lemma NoCsrPart(part: Trace, t: Trace)
    requires NoCsr(t) && part <= t
    ensures NoCsr(part)
  {
    hide IsCsr;
    forall k | 0 <= k < |part| ensures !IsCsr(part[k]) { assert part[k] == t[k]; }
  }

  /** Before the finalization the two servers are the same. */
  lemma SameBefore(world: World, m: nat, t: Trace, from: nat)
    requires NoCsr(t)
    ensures Agree(world, Slow(world, m), t, from)
  {
    hide IsCsr, NoCsr;
    forall k: nat | from < k <= |t| ensures world(t[..k]) == Slow(world, m)(t[..k]) {
      NoCsrPart(t[..k], t);
    }
  }

  // ---------------------------------------------------------------- no CSR before the finalization

  lemma {:induction false} FetchAllNoCsr(world: World, t: Trace, urls: seq<string>, sofar: seq<Fetched>)
    requires NoCsr(t)
    ensures NoCsr(FetchAll(world, t, urls, sofar).0)
    decreases |urls|
  {
    if urls != [] {
      var sent := t + [Send(urls[0], EmptyBody)];
      if world(sent).AuthzIs? { FetchAllNoCsr(world, sent, urls[1..], sofar + [Fetched(urls[0], world(sent).authz)]); }
    }
  }

  lemma {:induction false} SolveNoCsr(world: World, t: Trace, authzs: seq<Fetched>, routes: RouteMap,
                                      open: seq<Prepared>)
    requires NoCsr(t)
    ensures NoCsr(Solve(world, t, authzs, routes, open).0)
    decreases |authzs|
  {
    hide Choose;
    if authzs != [] && Choose(authzs[0].authz, routes).Some? {
      var (prepared, url) := Choose(authzs[0].authz, routes).value;
      SolveNoCsr(world, t + [Provision(prepared)] + [Send(url, ReadyBody)], authzs[1..], routes, open + [prepared]);
    }
  }

  lemma PolledNoCsr(t: Trace, after: Trace, url: string, patience: nat)
    requires NoCsr(t) && Polled(t, after, url, patience)
    ensures NoCsr(after)
  {
    NoCsrJoin(t, after);
  }

  lemma {:induction false} PollAuthzsNoCsr(env: Env, t: Trace, authzs: seq<Fetched>)
    requires NoCsr(t)
    ensures NoCsr(PollAuthzs(env, t, authzs).0)
    decreases |authzs|
  {
    hide PollAuthz, NoCsr, Polled;
    if authzs != [] {
      var patience := env.patience(t, authzs[0].url, AuthzLoop);
      var (polled, ok) := PollAuthz(env.world, t, authzs[0].url, patience);
      AuthzPollExact(env.world, t, authzs[0].url, patience);
      PolledNoCsr(t, polled, authzs[0].url, patience);
      if ok { PollAuthzsNoCsr(env, polled, authzs[1..]); }
    }
  }

  lemma PollOrderNoCsr(world: World, t: Trace, url: string, judge: OrderStatus -> Verdict, patience: nat)
    requires NoCsr(t)
    ensures NoCsr(PollOrder(world, t, url, judge, patience).0)
  {
    hide PollOrder, NoCsr, Polled;
    PollOrderExact(world, t, url, judge, patience);
    PolledNoCsr(t, PollOrder(world, t, url, judge, patience).0, url, patience);
  }

  // ---------------------------------------------------------------- while it is processing

  lemma SlowWhile(world: World, m: nat, sent: Trace, url: string, k: nat)
    requires FirstCsr(sent) == Some(|sent| - 1) && world(sent).OrderIs? && PlacedUrl(world, sent) == Some(url) && k <= m
    ensures Slow(world, m)(sent + PollsOf(url, k)) ==
            if k < m then OrderIs(world(sent).order.(status := OrderProcessing)) else world(sent)
  {
    hide FirstCsr, PlacedUrl;
    var t := sent + PollsOf(url, k);
    FirstCsrKept(sent, t);
    assert t[|sent|..] == PollsOf(url, k);
    if k == m { assert sent + PollsOf(url, k)[m..] == sent; }
  }

  lemma FirstCsrKept(sent: Trace, t: Trace)
    requires FirstCsr(sent) == Some(|sent| - 1) && sent <= t
    ensures FirstCsr(t) == Some(|sent| - 1) && t[..|sent|] == sent
  {
    hide IsCsr, NoCsr, FirstCsr;
    assert t[|sent| - 1] == sent[|sent| - 1] && t[..|sent| - 1] == sent[..|sent| - 1];
    FirstCsrIs(t, |sent| - 1);
  }

  /** What the slow server answers after this finalization, by what came since. */
  lemma SlowSince(world: World, m: nat, sent: Trace, t: Trace)
    requires FirstCsr(sent) == Some(|sent| - 1) && world(sent).OrderIs? && sent <= t && |t| - |sent| > m
    ensures Slow(world, m)(t) == world(sent + t[|sent|..][m..])
  {
    hide FirstCsr, PollOf;
    FirstCsrKept(sent, t);
  }

  lemma StretchedParts(sent: Trace, polls: Trace, t: Trace)
    requires sent < t
    ensures var late := Stretched(t, |sent|, polls);
            sent <= late && |late| - |sent| > |polls| && sent + late[|sent|..][|polls|..] == t
  {
    var late := Stretched(t, |sent|, polls);
    assert late[|sent|..] == polls + t[|sent|..];
    assert late[|sent|..][|polls|..] == t[|sent|..];
  }

  /** After the m-th poll it is the other server again, and has forgotten the polls. */
  lemma SlowLater(world: World, m: nat, sent: Trace, url: string, t: Trace)
    requires FirstCsr(sent) == Some(|sent| - 1) && world(sent).OrderIs? && sent < t
    ensures Slow(world, m)(Stretched(t, |sent|, PollsOf(url, m))) == world(t)
  {
    hide FirstCsr, Slow, Stretched;
    StretchedParts(sent, PollsOf(url, m), t);
    SlowSince(world, m, sent, Stretched(t, |sent|, PollsOf(url, m)));
  }

  /** From the k-th poll on, the loop gets the valid order with poll m if its patience allows. */
  lemma {:induction false} PollsThrough(world: World, m: nat, sent: Trace, url: string, k: nat, patience: nat)
    requires FirstCsr(sent) == Some(|sent| - 1) && world(sent).OrderIs? && PlacedUrl(world, sent) == Some(url) && k < m
    requires world(sent).order.status == OrderValid
    ensures PollOrder(Slow(world, m), sent + PollsOf(url, k), url, JudgeOrder, patience) ==
            if m - k <= patience + 1 then (sent + PollsOf(url, m), Some(world(sent).order))
            else (sent + PollsOf(url, k + patience + 1), None)
    decreases patience
  {
    hide IsCsr, NoCsr, FirstCsr, PlacedUrl, Slow, PollsOf;
    OneMorePoll(sent, url, k);
    SlowWhile(world, m, sent, url, k + 1);
    if k + 1 < m && patience > 0 { PollsThrough(world, m, sent, url, k + 1, patience - 1); }
  }

  lemma OneMorePoll(sent: Trace, url: string, k: nat)
    ensures sent + PollsOf(url, k) + [Send(url, EmptyBody)] == sent + PollsOf(url, k + 1)
  {
  }

  // ---------------------------------------------------------------- the rest of `issue`, later

  /** The other world answers each longer history as this one does without the polls. */
  ghost predicate Later(one: World, other: World, at: nat, polls: Trace, sent: Trace) {
    at == |sent| && forall t: Trace :: sent < t ==> other(Stretched(t, at, polls)) == one(t)
  }

  lemma StretchedNothing(sent: Trace, polls: Trace)
    ensures Stretched(sent, |sent|, polls) == sent + polls
  {
  }

  lemma DownloadLater(one: World, other: World, at: nat, polls: Trace, t: Trace, order: OrderView)
    requires Later(one, other, at, polls, t)
    ensures var (after, chain) := Download(one, t, order);
            t <= after && Download(other, Stretched(t, at, polls), order) == (Stretched(after, at, polls), chain)
  {
    hide Stretched;
    if order.certificate.Some? { StretchedMore(t, at, polls, Send(order.certificate.value, EmptyBody)); }
  }

  lemma {:induction false} CleanUpLater(one: World, other: World, at: nat, polls: Trace, sent: Trace, t: Trace,
                                        open: seq<Prepared>)
    requires Later(one, other, at, polls, sent) && sent <= t
    ensures var (after, cleaned) := CleanUp(one, t, open);
            t <= after && CleanUp(other, Stretched(t, at, polls), open) == (Stretched(after, at, polls), cleaned)
    decreases |open|
  {
    hide Stretched;
    if open != [] {
      StretchedMore(t, at, polls, Deprovision(open[0]));
      CleanUpLater(one, other, at, polls, sent, t + [Deprovision(open[0])], open[1..]);
    }
  }

  lemma OptionallyLater(t: Trace, at: nat, polls: Trace, wanted: bool, effect: Effect)
    requires at <= |t|
    ensures Optionally(Stretched(t, at, polls), wanted, effect) == Stretched(Optionally(t, wanted, effect), at, polls)
  {
    StretchedMore(t, at, polls, effect);
  }

  lemma ConcludeLater(one: World, other: World, at: nat, polls: Trace, sent: Trace, t: Trace, setup: Setup,
                      leaf: Certificate, values: seq<Value>)
    requires Later(one, other, at, polls, sent) && sent <= t
    ensures var (after, result) := Conclude(one, t, setup, leaf, values);
            t <= after
            && Conclude(other, Stretched(t, at, polls), setup, leaf, values) == (Stretched(after, at, polls), result)
  {
    hide Stretched, DnsTexts, Renewal.Texts;
    var save, record, emit := SaveCert(leaf, Renewal.Texts(values)), RecordIssuance(DnsTexts(values)),
      EmitIssued(Renewal.Texts(values));
    var t1 := Optionally(t, setup.hasStore, save);
    var t2 := Optionally(t1, setup.hasLimiter, record);
    OptionallyLater(t, at, polls, setup.hasStore, save);
    OptionallyLater(t1, at, polls, setup.hasLimiter, record);
    OptionallyLater(t2, at, polls, setup.hasEvents, emit);
  }

  // ---------------------------------------------------------------- stage by stage

  /** The slow run is the quick one with m polls after the finalization, if the patience of
      `poll_order` allows as many, and fails otherwise. */
  ghost predicate Alike<R(!new)>(world: World, patience: Patience, m: nat, quick: (Trace, Option<R>),
                                 slow: (Trace, Option<R>))
  {
    match FirstCsr(quick.0)
    case None => slow == quick
    case Some(i) =>
      var sent := quick.0[..i + 1];
      && world(sent).OrderIs? && PlacedUrl(world, sent).Some?
      && var url := PlacedUrl(world, sent).value;
      if m <= patience(sent, url, ValidLoop) + 1
      then slow == (Stretched(quick.0, i + 1, PollsOf(url, m)), quick.1)
      else slow.1 == None
  }

  /** Its meaning for a history that goes on after a known finalization. */
  lemma AlikeAfter<R(!new)>(world: World, patience: Patience, m: nat, sent: Trace, url: string,
                            quick: (Trace, Option<R>), slow: (Trace, Option<R>))
    requires FirstCsr(sent) == Some(|sent| - 1) && sent <= quick.0 && PlacedUrl(world, sent) == Some(url)
    requires world(sent).OrderIs?
    ensures Alike(world, patience, m, quick, slow) <==>
            if m <= patience(sent, url, ValidLoop) + 1
            then slow == (Stretched(quick.0, |sent|, PollsOf(url, m)), quick.1) else slow.1 == None
  {
    hide FirstCsr, PlacedUrl, Stretched, PollsOf;
    FirstCsrKept(sent, quick.0);
  }

  lemma SlowIsLater(world: World, m: nat, sent: Trace, url: string)
    requires FirstCsr(sent) == Some(|sent| - 1) && world(sent).OrderIs?
    ensures Later(world, Slow(world, m), |sent|, PollsOf(url, m), sent)
  {
    hide FirstCsr, Slow, Stretched, PollsOf;
    forall t: Trace | sent < t ensures Slow(world, m)(Stretched(t, |sent|, PollsOf(url, m))) == world(t) {
      SlowLater(world, m, sent, url, t);
    }
  }

  /** The finalization and the wait for the valid order. */
  lemma FinalizedSlowly(world: World, patience: Patience, m: nat, t: Trace, order: OrderView, csr: Csr, url: string)
    requires NoCsr(t) && PlacedUrl(world, t) == Some(url) && order.status == OrderReady
    requires var answer := world(t + [Send(order.finalize, CsrBody(csr))]);
             answer.OrderIs? && answer.order.status == OrderValid
    ensures var sent := t + [Send(order.finalize, CsrBody(csr))];
            var (after, finalized) := FinalizeOrder(Slow(world, m), t, order, csr);
            && FirstCsr(sent) == Some(|sent| - 1) && PlacedUrl(world, sent) == Some(url)
            && after == sent && finalized.Some?
            && AwaitValid(Env(Slow(world, m), patience), sent, finalized.value, url) ==
               if m <= patience(sent, url, ValidLoop) + 1
               then (sent + PollsOf(url, m), Some(world(sent).order))
               else (sent + PollsOf(url, patience(sent, url, ValidLoop) + 1), None)
  {
    hide NoCsr, FirstCsr, PlacedUrl, Slow, PollsOf, PollOrder;
    var sent := t + [Send(order.finalize, CsrBody(csr))];
    assert sent[..|t|] == t;
    FirstCsrIs(sent, |t|);
    PlacedLater(world, t, [Send(order.finalize, CsrBody(csr))]);
    NoPolls(sent, url);
    SlowWhile(world, m, sent, url, 0);
    if m > 0 { PollsThrough(world, m, sent, url, 0, patience(sent, url, ValidLoop)); }
  }

  lemma NoPolls(sent: Trace, url: string)
    ensures sent + PollsOf(url, 0) == sent
  {
  }

  lemma OtherwiseNoCsr(env: Env, t: Trace, url: string, csr: Option<Csr>)
    requires NoCsr(t)
    requires var ready := PollOrder(env.world, t, url, JudgeReady, env.patience(t, url, ReadyLoop)).1;
             ready.Some? ==> ready.value.status != OrderReady
    ensures NoCsr(Obtain(env, t, url, csr).0)
  {
    hide PollOrder;
    var t1 := PollOrder(env.world, t, url, JudgeReady, env.patience(t, url, ReadyLoop)).0;
    PollOrderNoCsr(env.world, t, url, JudgeReady, env.patience(t, url, ReadyLoop));
    PollOrderNoCsr(env.world, t1, url, JudgeOrder, env.patience(t1, url, ValidLoop));
  }

  lemma ObtainSlowly(world: World, patience: Patience, m: nat, t: Trace, url: string, csr: Option<Csr>)
    requires AtOnce(world) && NoCsr(t) && PlacedUrl(world, t) == Some(url)
    requires var (after, chain) := Obtain(Env(world, patience), t, url, csr); chain.Some? && FirstCsr(after).Some?
    ensures var quick := Obtain(Env(world, patience), t, url, csr);
            Alike(world, patience, m, quick, Obtain(Env(Slow(world, m), patience), t, url, csr))
  {
    hide NoCsr, FirstCsr, PlacedUrl, Slow, PollsOf, PollOrder, Alike, FinalizeOrder, AwaitValid, Download, Stretched,
      Later, Agree;
    var (t1, ready) := PollOrder(world, t, url, JudgeReady, patience(t, url, ReadyLoop));
    PollOrderNoCsr(world, t, url, JudgeReady, patience(t, url, ReadyLoop));
    SameBefore(world, m, t1, |t|);
    PollOrderSame(world, Slow(world, m), t, url, JudgeReady, patience(t, url, ReadyLoop));
    PollOrderExact(world, t, url, JudgeReady, patience(t, url, ReadyLoop));
    PlacedPrefix(world, t, t1);
    if ready.value.status != OrderReady {
      OtherwiseNoCsr(Env(world, patience), t, url, csr);
    } else {
      FinalizedQuickly(world, patience, t1, ready.value, csr.value, url);
      FinalizedSlowly(world, patience, m, t1, ready.value, csr.value, url);
      var sent := t1 + [Send(ready.value.finalize, CsrBody(csr.value))];
      SlowIsLater(world, m, sent, url);
      StretchedNothing(sent, PollsOf(url, m));
      DownloadLater(world, Slow(world, m), |sent|, PollsOf(url, m), sent, world(sent).order);
      AlikeAfter(world, patience, m, sent, url, Obtain(Env(world, patience), t, url, csr),
                 Obtain(Env(Slow(world, m), patience), t, url, csr));
    }
  }

  lemma FinalizedQuickly(world: World, patience: Patience, t: Trace, order: OrderView, csr: Csr, url: string)
    requires AtOnce(world) && order.status == OrderReady && FinalizeOrder(world, t, order, csr).1.Some?
    ensures var sent := t + [Send(order.finalize, CsrBody(csr))];
            && world(sent).OrderIs? && world(sent).order.status == OrderValid
            && FinalizeOrder(world, t, order, csr) == (sent, Some(world(sent).order))
            && AwaitValid(Env(world, patience), sent, world(sent).order, url) == (sent, Some(world(sent).order))
  {
  }

  lemma AttemptSlowly(world: World, patience: Patience, m: nat, t: Trace, url: string, authzs: seq<Fetched>,
                      routes: RouteMap, csr: Option<Csr>)
    requires AtOnce(world) && NoCsr(t) && PlacedUrl(world, t) == Some(url)
    requires var quick := Attempt(Env(world, patience), t, url, authzs, routes, csr);
             quick.2.Some? && FirstCsr(quick.0).Some?
    ensures var quick := Attempt(Env(world, patience), t, url, authzs, routes, csr);
            var slow := Attempt(Env(Slow(world, m), patience), t, url, authzs, routes, csr);
            slow.1 == quick.1 && Alike(world, patience, m, (quick.0, quick.2), (slow.0, slow.2))
  {
    hide NoCsr, FirstCsr, PlacedUrl, Slow, Alike, Agree, Solve, PollAuthzs, Obtain, AtOnce, OnlySends;
    var t1 := Solve(world, t, authzs, routes, []).0;
    SolveGrows(world, t, authzs, routes, []);
    SolveNoCsr(world, t, authzs, routes, []);
    SameBefore(world, m, t1, |t|);
    SolveSame(world, Slow(world, m), t, authzs, routes, []);
    var t2 := PollAuthzs(Env(world, patience), t1, authzs).0;
    PollAuthzsSends(Env(world, patience), t1, authzs);
    PollAuthzsNoCsr(Env(world, patience), t1, authzs);
    SameBefore(world, m, t2, |t1|);
    PollAuthzsSame(world, Slow(world, m), patience, t1, authzs);
    PrefixTwice(t, t1, t2);
    PlacedPrefix(world, t, t2);
    ObtainSlowly(world, patience, m, t2, url, csr);
    var quick := Attempt(Env(world, patience), t, url, authzs, routes, csr);
    var slow := Attempt(Env(Slow(world, m), patience), t, url, authzs, routes, csr);
    assert (quick.0, quick.2) == Obtain(Env(world, patience), t2, url, csr);
    assert (slow.0, slow.2) == Obtain(Env(Slow(world, m), patience), t2, url, csr);
  }

  lemma PrefixTwice(t: Trace, t1: Trace, t2: Trace)
    requires t <= t1 && OnlySends(t1, t2)
    ensures t <= t2
  {
  }

  lemma {:induction false} CleanUpNoCsr(world: World, t: Trace, open: seq<Prepared>)
    requires NoCsr(t)
    ensures NoCsr(CleanUp(world, t, open).0)
    decreases |open|
  {
    if open != [] && !world(t + [Deprovision(open[0])]).Cancelled? {
      CleanUpNoCsr(world, t + [Deprovision(open[0])], open[1..]);
    }
  }

  lemma ConcludeNoCsr(world: World, t: Trace, setup: Setup, leaf: Certificate, values: seq<Value>)
    requires NoCsr(t)
    ensures NoCsr(Conclude(world, t, setup, leaf, values).0)
  {
    hide DnsTexts, Renewal.Texts;
  }

  lemma FulfilSlowly(world: World, patience: Patience, m: nat, setup: Setup, account: Option<string>,
                     values: seq<Value>, routes: RouteMap, t: Trace, url: string, order: OrderView)
    requires AtOnce(world) && NoCsr(t) && PlacedUrl(world, t) == Some(url) && values != []
    requires var quick := Fulfil(Env(world, patience), setup, account, values, routes, t, url, order);
             quick.leaf.Some? && FirstCsr(quick.trace).Some?
    ensures var quick := Fulfil(Env(world, patience), setup, account, values, routes, t, url, order);
            var slow := Fulfil(Env(Slow(world, m), patience), setup, account, values, routes, t, url, order);
            && slow.accountUrl == quick.accountUrl
            && Alike(world, patience, m, (quick.trace, quick.leaf), (slow.trace, slow.leaf))
  {
    hide NoCsr, FirstCsr, PlacedUrl, Slow, Alike, Agree, FetchAll, Attempt, CleanUp, AcceptLeaf, Conclude, AtOnce,
      OnlySends, GeneratedCsr, ForRequest;
    var (t1, authzs) := FetchAll(world, t, order.authorizations, []);
    FetchAllNoCsr(world, t, order.authorizations, []);
    SameBefore(world, m, t1, |t|);
    FetchAllSame(world, Slow(world, m), t, order.authorizations, []);
    FetchAllSends(world, t, order.authorizations, []);
    PrefixTwice(t, t, t1);
    PlacedPrefix(world, t, t1);
    var csr := GeneratedCsr(setup.certKey, values);
    var quick := Attempt(Env(world, patience), t1, url, authzs.value, routes, csr);
    var (t3, cleaned) := CleanUp(world, quick.0, quick.1);
    var leaf := AcceptLeaf(quick.2.value, values, setup.certKey).value;
    if NoCsr(quick.0) {
      CleanUpNoCsr(world, quick.0, quick.1);
      ConcludeNoCsr(world, t3, setup, leaf, values);
    } else {
      AttemptSlowly(world, patience, m, t1, url, authzs.value, routes, csr);
      EndedSlowly(world, patience, m, setup, account, values, routes, t, url, order, t1, authzs.value);
    }
  }

  /** Cleaning up and concluding after the download. */
  lemma EndedLater(one: World, other: World, at: nat, polls: Trace, sent: Trace, t: Trace, open: seq<Prepared>,
                   setup: Setup, leaf: Certificate, values: seq<Value>)
    requires Later(one, other, at, polls, sent) && sent <= t
    ensures var (t3, cleaned) := CleanUp(one, t, open);
            var (t4, result) := Conclude(one, t3, setup, leaf, values);
            && sent <= t3 && sent <= t4
            && CleanUp(other, Stretched(t, at, polls), open) == (Stretched(t3, at, polls), cleaned)
            && Conclude(other, Stretched(t3, at, polls), setup, leaf, values) == (Stretched(t4, at, polls), result)
  {
    hide Stretched, CleanUp, Conclude, Later;
    LaterAt(one, other, at, polls, sent);
    CleanUpLater(one, other, at, polls, sent, t, open);
    ConcludeLater(one, other, at, polls, sent, CleanUp(one, t, open).0, setup, leaf, values);
  }

  lemma LaterAt(one: World, other: World, at: nat, polls: Trace, sent: Trace)
    requires Later(one, other, at, polls, sent)
    ensures at == |sent|
  {
  }

  /** The finalization in a history that has one. */
  lemma SentIn(t: Trace) returns (sent: Trace)
    requires FirstCsr(t).Some?
    ensures sent == t[..FirstCsr(t).value + 1] && sent <= t && FirstCsr(sent) == Some(|sent| - 1)
  {
    hide FirstCsr, IsCsr, NoCsr;
    var i := FirstCsr(t).value;
    sent := t[..i + 1];
    assert sent[..i] == t[..i];
    FirstCsrIs(sent, i);
  }

  /** From the attempt to the leaf. */
  lemma EndedSlowly(world: World, patience: Patience, m: nat, setup: Setup, account: Option<string>,
                    values: seq<Value>, routes: RouteMap, t: Trace, url: string, order: OrderView, t1: Trace,
                    authzs: seq<Fetched>)
    requires values != []
    requires FetchAll(world, t, order.authorizations, []) == (t1, Some(authzs))
    requires FetchAll(Slow(world, m), t, order.authorizations, []) == (t1, Some(authzs))
    requires Fulfil(Env(world, patience), setup, account, values, routes, t, url, order).leaf.Some?
    requires var csr := GeneratedCsr(setup.certKey, values);
             var quick := Attempt(Env(world, patience), t1, url, authzs, routes, csr);
             var slow := Attempt(Env(Slow(world, m), patience), t1, url, authzs, routes, csr);
             && slow.1 == quick.1 && FirstCsr(quick.0).Some?
             && Alike(world, patience, m, (quick.0, quick.2), (slow.0, slow.2))
    ensures var quick := Fulfil(Env(world, patience), setup, account, values, routes, t, url, order);
            var slow := Fulfil(Env(Slow(world, m), patience), setup, account, values, routes, t, url, order);
            && slow.accountUrl == quick.accountUrl
            && Alike(world, patience, m, (quick.trace, quick.leaf), (slow.trace, slow.leaf))
  {
    hide FirstCsr, PlacedUrl, Slow, Alike, FetchAll, Attempt, CleanUp, AcceptLeaf, Conclude, GeneratedCsr, Stretched,
      PollsOf, Later;
    var csr := GeneratedCsr(setup.certKey, values);
    var quick := Attempt(Env(world, patience), t1, url, authzs, routes, csr);
    var slow := Attempt(Env(Slow(world, m), patience), t1, url, authzs, routes, csr);
    var leaf := AcceptLeaf(quick.2.value, values, setup.certKey).value;
    var sent := SentIn(quick.0);
    AlikeSent(world, patience, m, (quick.0, quick.2), (slow.0, slow.2));
    var placed := PlacedUrl(world, sent).value;
    var polls := PollsOf(placed, m);
    AlikeAfter(world, patience, m, sent, placed, (quick.0, quick.2), (slow.0, slow.2));
    SlowIsLater(world, m, sent, placed);
    EndedLater(world, Slow(world, m), |sent|, polls, sent, quick.0, quick.1, setup, leaf, values);
    var ended := Conclude(world, CleanUp(world, quick.0, quick.1).0, setup, leaf, values);
    var slowly := Fulfil(Env(Slow(world, m), patience), setup, account, values, routes, t, url, order);
    AlikeAfter(world, patience, m, sent, placed, ended, (slowly.trace, slowly.leaf));
  }

  lemma AlikeSent<R(!new)>(world: World, patience: Patience, m: nat, quick: (Trace, Option<R>),
                           slow: (Trace, Option<R>))
    requires FirstCsr(quick.0).Some? && Alike(world, patience, m, quick, slow)
    ensures var sent := quick.0[..FirstCsr(quick.0).value + 1];
            PlacedUrl(world, sent).Some? && world(sent).OrderIs?
  {
    hide FirstCsr, PlacedUrl, Stretched, PollsOf;
  }

  // ---------------------------------------------------------------- the whole of `issue`

  lemma OpenAccountNoCsr(world: World, setup: Setup, accountUrl: Option<string>, values: seq<Value>)
    ensures NoCsr(OpenAccount(world, [], setup, accountUrl, values).0)
    ensures PlacedUrl(world, OpenAccount(world, [], setup, accountUrl, values).0) == None
  {
    hide DnsTexts;
    var checked := Optionally([], setup.hasLimiter, LimitCheck(DnsTexts(values)));
    assert PlacedUrl(world, checked) == None;
    assert (checked + [Send(setup.newAccount, AccountBody)])[..|checked|] == checked;
  }

  lemma OrderPlacedHere(world: World, t: Trace, url: string, ids: seq<Identifier>)
    requires NoCsr(t) && PlacedUrl(world, t) == None && world(t + [Send(url, OrderBody(ids))]).OrderAt?
    ensures var sent := t + [Send(url, OrderBody(ids))];
            NoCsr(sent) && PlacedUrl(world, sent) == Some(world(sent).url)
  {
    assert (t + [Send(url, OrderBody(ids))])[..|t|] == t;
  }

  /** In every environment in which `issue` succeeds and finalized orders are valid at once: when
      the server instead answers the finalization and the next m - 1 polls with a processing
      order, `issue` makes exactly m polls of the order more, right after the finalization, and
      otherwise the same calls with the same result, if the patience of `poll_order` allows m
      polls; if it does not, `issue` fails. Where there was nothing to finalize, nothing
      changes. */
  lemma IssueSlowly(world: World, patience: Patience, m: nat, setup: Setup, accountUrl: Option<string>,
                    values: seq<Value>)
    requires AtOnce(world) && IssueRun(Env(world, patience), [], setup, accountUrl, values).leaf.Some?
    ensures var quick := IssueRun(Env(world, patience), [], setup, accountUrl, values);
            var slow := IssueRun(Env(Slow(world, m), patience), [], setup, accountUrl, values);
            && slow.accountUrl == quick.accountUrl
            && Alike(world, patience, m, (quick.trace, quick.leaf), (slow.trace, slow.leaf))
  {
    hide NoCsr, FirstCsr, PlacedUrl, Slow, Agree, OpenAccount, Fulfil, AtOnce, Plan, IdentifiersOfValues, Stretched,
      PollsOf;
    PlannedNotEmpty(setup, values);
    var quick := IssueRun(Env(world, patience), [], setup, accountUrl, values);
    if FirstCsr(quick.trace).None? {
      SameBefore(world, m, quick.trace, 0);
      IssueSame(world, Slow(world, m), patience, [], setup, accountUrl, values);
    } else {
      hide Alike;
      var (t1, account) := OpenAccount(world, [], setup, accountUrl, values);
      var t2 := t1 + [Send(setup.newOrder, OrderBody(IdentifiersOfValues(values)))];
      OpenAccountNoCsr(world, setup, accountUrl, values);
      SameBefore(world, m, t1, 0);
      OpenAccountSame(world, Slow(world, m), [], setup, accountUrl, values);
      OrderPlacedHere(world, t1, setup.newOrder, IdentifiersOfValues(values));
      SameBefore(world, m, t2, 0);
      AgreeAt(world, Slow(world, m), t2, t2, 0);
      FulfilSlowly(world, patience, m, setup, account, values, Plan(setup, values).value, t2, world(t2).url,
                   world(t2).order);
    }
  }

  // ---------------------------------------------------------------- the responder, slowed down

  lemma ParsedOnlyObject(wire: Wire, url: string, csr: Csr, k: nat)
    requires FaithfulWire(wire)
    ensures Jose.ParseJws(Raw(wire, url, CsrBody(csr), k), Jose.EmptyMode) == None
  {
    hide Header, Fields, Jose.JwsEncode, Jose.ParseJws;
    Jose.JwsRoundTrip(Raw(wire, url, CsrBody(csr), k), wire.dumps(Header(wire, url, CsrBody(csr), k)),
                      Payload(wire, CsrBody(csr)), wire.signatures(k), Jose.EmptyMode);
  }

  lemma FinalizedIsValid(s: State, base: string, path: string, payload: map<string, Json.Json>)
    ensures var response := Finalize(s, base, path, payload).1;
            response.OrderDoc? ==> response.order.status == OrderValid
  {
    hide DecodeCsr, CommonNameFits, SignCsr, CertUrl, Text.LastSegment, AllValid;
  }

  lemma PlacedIsCreated(s: State, base: string, payload: map<string, Json.Json>, tokens: nat -> string)
    ensures var response := NewOrder(s, base, payload, tokens).1; response.OrderDoc? ==> response.status == 201
  {
    hide NormalizeIdentifiers, MintAuthzs;
  }

  /** Whatever route a request with a body takes, an order it is answered with is new or valid. */
  lemma OrderAnswers(s: State, req: Request, tokens: nat -> string)
    requires Jose.ParseJws(req.raw, Jose.EmptyMode).None?
    ensures var outcome := Serve(AutoApprove, s, req, tokens).1;
            outcome.Answer? && outcome.response.OrderDoc? && outcome.response.status == 200 ==>
              outcome.response.order.status == OrderValid
  {
    hide RouteOf, Jose.ParseJws, NewAccount, NewOrder, RespondChallenge, FetchAuthz, FetchCertificate, Finalize,
      FetchOrder;
    var mode := ModeOf(RouteOf(req.path));
    if mode.Some? && Jose.ParseJws(req.raw, mode.value).Some? {
      var jws := Jose.ParseJws(req.raw, mode.value).value;
      FinalizedIsValid(s, req.base, req.path, jws.payload);
      PlacedIsCreated(s, req.base, jws.payload, tokens);
      OthersNoOrder(s, req.base, jws, req.base + req.path);
    }
  }

  lemma OthersNoOrder(s: State, base: string, jws: Jose.Jws, url: string)
    ensures !NewAccount(s, base, jws).1.OrderDoc?
    ensures var outcome := RespondChallenge(AutoApprove, s, url).1; outcome.Answer? ==> !outcome.response.OrderDoc?
    ensures !FetchAuthz(s, url).OrderDoc? && !FetchCertificate(s, url).OrderDoc?
  {
    hide FindChallenge, HttpHit, AccountUrl;
  }

  /** The responder's finalized orders are valid at once. */
  lemma ResponderAtOnce(scene: Scene)
    requires FaithfulWire(scene.wire)
    ensures AtOnce(ResponderWorld(scene))
  {
    hide Serve, Raw, ServerAfter, FaithfulWire;
    var world := ResponderWorld(scene);
    forall t: Trace, url: string, csr: Csr
      ensures var answer := world(t + [Send(url, CsrBody(csr))]);
              answer.OrderIs? ==> answer.order.status == OrderValid
    {
      Called(scene, t, Send(url, CsrBody(csr)));
      if scene.base <= url {
        var k := |Sends(t)| + 1;
        var request := Request(scene.base, url[|scene.base|..], Raw(scene.wire, url, CsrBody(csr), k));
        ParsedOnlyObject(scene.wire, url, csr, k);
        OrderAnswers(ServerAfter(scene, t), request, scene.tokens(k));
      }
    }
  }

  lemma {:induction false} NoCsrSent(t: Trace)
    requires NoCsr(t)
    ensures forall sent :: sent in Sends(t) ==> !sent.body.CsrBody?
  {
    if t != [] {
      NoCsrPart(t[..|t| - 1], t);
      NoCsrSent(t[..|t| - 1]);
    }
  }

  lemma CsrAmongRequests(scene: Scene, setup: Setup, known: bool, values: seq<Value>, routes: RouteMap)
    requires values != [] && CommonNameFits(values)
    ensures exists sent :: sent in RunRequests(scene, setup, known, values, routes) && sent.body.CsrBody?
  {
    hide CsrFor, OrderUrl, FinalizeUrl, CertUrl, CommonNameFits, Reads, Answers, AuthzUrls;
    var s := scene.start;
    var closing := Closing(scene.base, s.orderCounter + 1, s.certCounter + 1, values, setup.certKey);
    assert closing[1].body.CsrBody?;
    assert closing[1] in closing;
    assert closing[1] in RunRequests(scene, setup, known, values, routes);
  }

  lemma {:induction false} SendsJoin(t: Trace, more: Trace)
    ensures Sends(t + more) == Sends(t) + Sends(more)
  {
    if more == [] {
      assert t + more == t;
    } else {
      SendsJoin(t, more[..|more| - 1]);
      assert (t + more)[..|t + more| - 1] == t + more[..|more| - 1];
    }
  }

  lemma {:induction false} PollsSent(url: string, m: nat)
    ensures |Sends(PollsOf(url, m))| == m
  {
    if m > 0 {
      PollsSent(url, m - 1);
      assert PollsOf(url, m)[..m - 1] == PollsOf(url, m - 1);
    }
  }

  lemma StretchedSends(t: Trace, at: nat, url: string, m: nat)
    requires at <= |t|
    ensures |Sends(Stretched(t, at, PollsOf(url, m)))| == |Sends(t)| + m
  {
    hide PollsOf, Sends;
    SendsJoin(t[..at], t[at..]);
    assert t[..at] + t[at..] == t;
    PollsSent(url, m);
    SendsJoin(t[..at] + PollsOf(url, m), t[at..]);
    SendsJoin(t[..at], PollsOf(url, m));
  }

  /** How many polls `poll_order` would make after the finalization of this history. */
  function PollsAllowed(world: World, patience: Patience, t: Trace): nat
    requires FirstCsr(t).Some?
  {
    var sent := t[..FirstCsr(t).value + 1];
    var url := match PlacedUrl(world, sent) case Some(url) => url case None => "";
    patience(sent, url, ValidLoop) + 1
  }

  /** End to end, against a responder that says m times that the order is processing: `issue`
      succeeds exactly when `poll_order` may make m polls, with m requests more than against one
      that issues at once, and the same certificate. */
  lemma IssueSucceedsSlowly(scene: Scene, patience: Patience, setup: Setup, accountUrl: Option<string>,
                            values: seq<Value>, m: nat)
    requires FaithfulWire(scene.wire) && AcmeSafety.Inv(scene.start)
    requires setup.newAccount == scene.base + "/new-account" && setup.newOrder == scene.base + "/new-order"
    requires Plan(setup, values).Some?
    requires forall key :: key in Plan(setup, values).value ==> !Plan(setup, values).value[key].kind.OtherType?
    requires values != [] && |ValueText(values[0])| <= 64
    ensures var quick := IssueRun(Env(ResponderWorld(scene), patience), [], setup, accountUrl, values);
            var slow := IssueRun(Env(Slow(ResponderWorld(scene), m), patience), [], setup, accountUrl, values);
            && FirstCsr(quick.trace).Some?
            && (slow.leaf.Some? <==> m <= PollsAllowed(ResponderWorld(scene), patience, quick.trace))
            && (slow.leaf.Some? ==>
                  && slow.leaf == Some(Certificate(NamesOf(values), setup.certKey))
                  && |Sends(slow.trace)| == 3 * |values| + 4 + (if accountUrl.Some? then 0 else 1) + m)
  {
    hide ResponderWorld, FaithfulWire, NamesOf, Sends, Plan, AcmeSafety.Inv, AllCompatible, Cleaned, Successes,
      ValueText, IssueRun, RunRequests, FirstCsr, PlacedUrl, Slow, PollsOf, Stretched, AtOnce, NoCsr;
    var world, routes := ResponderWorld(scene), Plan(setup, values).value;
    var quick := IssueRun(Env(world, patience), [], setup, accountUrl, values);
    var slow := IssueRun(Env(Slow(world, m), patience), [], setup, accountUrl, values);
    IssueSucceeds(scene, patience, setup, accountUrl, values);
    ResponderAtOnce(scene);
    IssueSlowly(world, patience, m, setup, accountUrl, values);
    if FirstCsr(quick.trace).None? {
      NoCsrSent(quick.trace);
      CsrAmongRequests(scene, setup, accountUrl.Some?, values, routes);
    } else {
      var sent := SentIn(quick.trace);
      AlikeSent(world, patience, m, (quick.trace, quick.leaf), (slow.trace, slow.leaf));
      StretchedSends(quick.trace, |sent|, PlacedUrl(world, sent).value, m);
    }
  }
}
