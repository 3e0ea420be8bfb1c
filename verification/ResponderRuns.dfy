/** Whole runs of the responder, with requests interleaved at every await. */
module ResponderRuns {
  import opened Wrappers
  import opened Text
  import Json
  import Jose
  import opened Identifiers
  import opened CsrBinding
  import opened Routes
  import opened Acme
  import opened AcmeSafety
  import opened AcmeServer

  /** Where a request is suspended: reading its body, or waiting for the validator. */
  datatype Phase =
    | Reading(req: Request, nonce: string)
    | Checking(req: Request, nonce: string, key: string)
    | Finished(req: Request, nonce: string, response: Response)

  datatype World = World(server: State, tasks: map<nat, Phase>)

  datatype Event =
    | Arrive(task: nat, req: Request)
    | BodyRead(task: nat, tokens: nat -> string)
    | Verdict(task: nat, ok: bool)

  /** One resumption of one request; an event that fits no suspended request is void. */
  function Step(approval: Approval, w: World, e: Event): World {
    match e
    case Arrive(task, req) =>
      if task in w.tasks then w
      else
        var nonce := NonceText(w.server.nonceCounter + 1);
        var phase := if ModeOf(RouteOf(req.path)).None? then Finished(req, nonce, Immediate(req))
          else Reading(req, nonce);
        World(w.server.(nonceCounter := w.server.nonceCounter + 1), w.tasks[task := phase])
    case BodyRead(task, tokens) =>
      if task !in w.tasks || !w.tasks[task].Reading? then w
      else
        var phase := w.tasks[task];
        var (server, outcome) := Receive(approval, w.server, phase.req, tokens);
        var next := match outcome
                    case Answer(response) => Finished(phase.req, phase.nonce, response)
                    case AwaitVerdict(key) => Checking(phase.req, phase.nonce, key);
        World(server, w.tasks[task := next])
    case Verdict(task, ok) =>
      if task !in w.tasks || !w.tasks[task].Checking? || w.tasks[task].key !in w.server.authzs then w
      else
        var phase := w.tasks[task];
        var (server, response) := SettleChallenge(w.server, phase.key, phase.req.base + phase.req.path, ok);
        World(server, w.tasks[task := Finished(phase.req, phase.nonce, response)])
  }

  const START: World := World(EMPTY, map[])

  function Run(approval: Approval, events: seq<Event>): World {
    if events == [] then START
    else Step(approval, Run(approval, events[..|events| - 1]), events[|events| - 1])
  }

  // ---------------------------------------------------------------- every step

  predicate WorldInv(w: World) {
    && Inv(w.server)
    && forall task :: task in w.tasks && w.tasks[task].Checking? ==> w.tasks[task].key in w.server.authzs
  }

  /** No step breaks the server's consistency or changes a resource in a forbidden way. */
  lemma StepSafe(approval: Approval, w: World, e: Event)
    requires WorldInv(w)
    ensures WorldInv(Step(approval, w, e))
    ensures Evolves(w.server, Step(approval, w, e).server)
  {
    hide Inv, Receive, SettleChallenge, RouteOf, NonceText, OrderEvolves, AuthzEvolves;
    EvolvesReflexive(w.server);
    match e
    case Arrive(task, req) =>
      SafeFrame(w.server, w.server, w.server.nonceCounter + 1, w.server.accounts, w.server.accountCounter);
    case BodyRead(task, tokens) =>
      if task in w.tasks && w.tasks[task].Reading? {
        ReceiveSafe(approval, w.server, w.tasks[task].req, tokens);
      }
    case Verdict(task, ok) =>
      if task in w.tasks && w.tasks[task].Checking? {
        var phase := w.tasks[task];
        SettleChallengeSafe(w.server, phase.key, phase.req.base + phase.req.path, ok);
      }
  }

  lemma {:induction false} RunInv(approval: Approval, events: seq<Event>)
    ensures WorldInv(Run(approval, events))
  {
    hide Inv;
    if events == [] {
      EmptyInv();
    } else {
      RunInv(approval, events[..|events| - 1]);
      StepSafe(approval, Run(approval, events[..|events| - 1]), events[|events| - 1]);
    }
  }

  /** Over every run the number of valid orders is the certificate counter. */
  lemma {:induction false} CertificatesCounted(approval: Approval, events: seq<Event>)
    ensures NoneSkipped(Run(approval, events).server)
    ensures var s := Run(approval, events).server;
            |set key | key in s.orders && s.orders[key].status == OrderValid| == s.certCounter
  {
    hide Inv, Receive, RouteOf, NonceText, SetStatus;
    if events != [] {
      var before, e := events[..|events| - 1], events[|events| - 1];
      CertificatesCounted(approval, before);
      RunInv(approval, before);
      CountedStep(approval, Run(approval, before), e);
    }
    RunInv(approval, events);
    CertificateCount(Run(approval, events).server);
  }

  lemma CountedStep(approval: Approval, w: World, e: Event)
    requires WorldInv(w) && NoneSkipped(w.server)
    ensures NoneSkipped(Step(approval, w, e).server)
  {
    hide Inv, Receive, RouteOf, NonceText, HttpHit;
    if e.BodyRead? && e.task in w.tasks && w.tasks[e.task].Reading? {
      ReceiveCounts(approval, w.server, w.tasks[e.task].req, e.tokens);
    }
  }

  lemma RunStep(approval: Approval, events: seq<Event>, i: nat)
    requires i < |events|
    ensures Run(approval, events[..i + 1]) == Step(approval, Run(approval, events[..i]), events[i])
  {
    hide Step;
    assert events[..i + 1][..i] == events[..i];
  }

  // ---------------------------------------------------------------- over whole runs

  /** Between two instants an order keeps its identity, its status never goes back, its
      certificate never changes, and issued certificates stay what they are. */
  lemma {:induction false} NeverGoesBack(approval: Approval, events: seq<Event>, i: nat, j: nat, key: string)
    requires i <= j <= |events| && key in Run(approval, events[..i]).server.orders
    ensures key in Run(approval, events[..j]).server.orders
    ensures var before := Run(approval, events[..i]).server.orders[key];
            var after := Run(approval, events[..j]).server.orders[key];
            && after == before.(status := after.status, certificateUrl := after.certificateUrl)
            && Rank(before.status) <= Rank(after.status)
            && (before.certificateUrl.Some? ==> after.certificateUrl == before.certificateUrl)
    ensures forall c :: c in Run(approval, events[..i]).server.certificates ==>
              c in Run(approval, events[..j]).server.certificates
              && Run(approval, events[..j]).server.certificates[c] == Run(approval, events[..i]).server.certificates[c]
    decreases j
  {
    hide Inv, Run, Step, AllValid;
    if i < j {
      NeverGoesBack(approval, events, i, j - 1, key);
      RunInv(approval, events[..j - 1]);
      RunStep(approval, events, j - 1);
      StepSafe(approval, Run(approval, events[..j - 1]), events[j - 1]);
      assert OrderEvolves(Run(approval, events[..j - 1]).server, Run(approval, events[..j - 1]).server.orders[key],
                          Run(approval, events[..j]).server.orders[key]);
    }
  }

  /** At this instant the order was still pending and every one of its authorizations
      existed and was valid; at the next it was no longer pending. */
  predicate BecameReadyAt(approval: Approval, events: seq<Event>, i: nat, order: Order)
    requires i < |events|
  {
    var now, next := Run(approval, events[..i]).server, Run(approval, events[..i + 1]).server;
    && order.url in now.orders && now.orders[order.url].status == OrderPending
    && order.url in next.orders && next.orders[order.url].status != OrderPending
    && Covered(now.authzs, order.authzUrls, order.identifiers)
    && AllValid(now, order.authzUrls)
  }

  lemma ReadyStep(approval: Approval, events: seq<Event>, i: nat, key: string)
    requires i < |events| && key in Run(approval, events[..i + 1]).server.orders
    requires Run(approval, events[..i + 1]).server.orders[key].status != OrderPending
    ensures key in Run(approval, events[..i]).server.orders
    ensures Run(approval, events[..i]).server.orders[key].status == OrderPending ==>
              BecameReadyAt(approval, events, i, Run(approval, events[..i + 1]).server.orders[key])
  {
    hide Inv, Run, Step, AllValid, Covered, ValidIdentifiers, Certified;
    RunInv(approval, events[..i]);
    RunStep(approval, events, i);
    var now := Run(approval, events[..i]);
    StepSafe(approval, now, events[i]);
    if key in now.server.orders {
      OrderOf(now.server, key);
      assert OrderEvolves(now.server, now.server.orders[key], Run(approval, events[..i + 1]).server.orders[key]);
    }
  }

  /** Whatever the approval mode and the interleaving, an order that is no longer pending
      became ready at an instant when all its authorizations were valid. */
  lemma {:induction false} ReadyWasValidated(approval: Approval, events: seq<Event>, key: string)
    requires key in Run(approval, events).server.orders
    requires Run(approval, events).server.orders[key].status != OrderPending
    ensures exists i :: 0 <= i < |events|
              && BecameReadyAt(approval, events, i, Run(approval, events).server.orders[key])
  {
    hide Inv, Run, Step, BecameReadyAt;
    assert events[..|events|] == events;
    ReadyFrom(approval, events, |events|, key);
  }

  lemma {:induction false} ReadyFrom(approval: Approval, events: seq<Event>, n: nat, key: string)
    requires n <= |events|
    requires key in Run(approval, events[..n]).server.orders
    requires Run(approval, events[..n]).server.orders[key].status != OrderPending
    ensures exists i :: 0 <= i < n && BecameReadyAt(approval, events, i, Run(approval, events[..n]).server.orders[key])
    decreases n
  {
    hide Inv, Run, Step, BecameReadyAt;
    NoOrdersAtStart(approval);
    assert events[..0] == [];
    if n > 0 {
      ReadyStep(approval, events, n - 1, key);
      if Run(approval, events[..n - 1]).server.orders[key].status != OrderPending {
        ReadyFrom(approval, events, n - 1, key);
        NeverGoesBack(approval, events, n - 1, n, key);
        var i :| 0 <= i < n - 1
                 && BecameReadyAt(approval, events, i, Run(approval, events[..n - 1]).server.orders[key]);
        SameOrderReady(approval, events, i, Run(approval, events[..n - 1]).server.orders[key],
                       Run(approval, events[..n]).server.orders[key]);
      }
    }
  }

  lemma NoOrdersAtStart(approval: Approval)
    ensures Run(approval, []) == START && START.server.orders == map[]
  {
  }

  lemma SameOrderReady(approval: Approval, events: seq<Event>, i: nat, order: Order, later: Order)
    requires i < |events| && BecameReadyAt(approval, events, i, order)
    requires later == order.(status := later.status, certificateUrl := later.certificateUrl)
    ensures BecameReadyAt(approval, events, i, later)
  {
    hide Run, AllValid, Covered;
  }

  /** No certificate without validation: every certificate the responder holds was issued
      to one order, carries exactly that order's identifiers, and each of those identifiers
      had a valid authorization of its own at one instant of the run. */
  lemma CertificatesWereValidated(approval: Approval, events: seq<Event>, c: string)
    requires c in Run(approval, events).server.certificates
    ensures exists key, i :: Justified(approval, events, c, key, i)
  {
    hide Run, BecameReadyAt, CertificateOf, Inv;
    RunInv(approval, events);
    var key := OwnerOf(Run(approval, events).server, c);
    ReadyWasValidated(approval, events, key);
    var i :| 0 <= i < |events| && BecameReadyAt(approval, events, i, Run(approval, events).server.orders[key]);
    assert Justified(approval, events, c, key, i);
  }

  /** The certificate is this order's, and the order became ready validated at this instant. */
  predicate Justified(approval: Approval, events: seq<Event>, c: string, key: string, i: int) {
    && 0 <= i < |events|
    && key in Run(approval, events).server.orders
    && CertificateOf(Run(approval, events).server, c, Run(approval, events).server.orders[key])
    && BecameReadyAt(approval, events, i, Run(approval, events).server.orders[key])
  }

  predicate CertificateOf(s: State, c: string, order: Order) {
    && order.certificateUrl == Some(c) && ValidIdentifiers(order.identifiers)
    && c in s.certificates && s.certificates[c].sans == NamesFor(order.identifiers)
  }

  lemma OwnerOf(s: State, c: string) returns (key: string)
    requires Inv(s) && c in s.certificates
    ensures key in s.orders && s.orders[key].status != OrderPending && CertificateOf(s, c, s.orders[key])
  {
    hide AuthzsConsistent, OrdersKeyed, OrdersFit, CertificatesNumbered, CertificatesUnshared, Advertised, Covered,
      ValidIdentifiers, NamesFor;
    key :| key in s.orders && s.orders[key].certificateUrl == Some(c);
    OrderOf(s, key);
  }

  // ---------------------------------------------------------------- without a validator

  predicate NothingValid(s: State) {
    && (forall key :: key in s.authzs ==> s.authzs[key].status == AuthzPending)
    && (forall key :: key in s.orders ==> s.orders[key].status == OrderPending)
  }

  lemma NotAllValid(s: State, url: string)
    requires Inv(s) && NothingValid(s) && url in s.orders
    ensures Promote(s, url) == s
  {
    hide AuthzsConsistent, OrdersKeyed, OrdersFit, CertificatesNumbered, CertificatesOwned, CertificatesUnshared,
      Advertised, ValidIdentifiers, Covers, Certified;
    OrderOf(s, url);
    var urls := s.orders[url].authzUrls;
    assert urls[0] in s.authzs;
  }

  lemma {:induction false} StoredPending(authzs: map<string, Authz>, minted: seq<Authz>)
    requires forall key :: key in authzs ==> authzs[key].status == AuthzPending
    requires forall i :: 0 <= i < |minted| ==> minted[i].status == AuthzPending
    ensures forall key :: key in StoreAuthzs(authzs, minted) ==> StoreAuthzs(authzs, minted)[key].status == AuthzPending
  {
    if minted != [] { StoredPending(authzs, minted[..|minted| - 1]); }
  }

  lemma NothingPlaced(s: State, base: string, ids: seq<Identifier>, tokens: nat -> string)
    requires NothingValid(s)
    ensures NothingValid(PlaceOrder(s, base, ids, tokens).0)
  {
    hide OrderUrl, FinalizeUrl, AuthzUrl, ChallengeUrl, DnsChallengeUrl;
    var minted := MintAuthzs(base, s.authzCounter, ids, tokens);
    forall i | 0 <= i < |minted| ensures minted[i].status == AuthzPending {
      assert minted[i] == MintAuthz(base, s.authzCounter + i + 1, ids[i], tokens(i));
    }
    StoredPending(s.authzs, minted);
  }

  lemma NothingHandled(s: State, req: Request, tokens: nat -> string)
    requires Inv(s) && NothingValid(s)
    ensures NothingValid(Receive(Never, s, req, tokens).0)
    ensures Receive(Never, s, req, tokens).1.Answer?
  {
    hide Inv, RouteOf, Jose.ParseJws, Jose.LoadObject, FindChallenge, NormalizeIdentifiers, PlaceOrder, Promote,
      Finalize, NewAccount;
    var url := req.base + req.path;
    if url in s.orders { NotAllValid(s, url); }
    var mode := ModeOf(RouteOf(req.path));
    if mode.Some? && Jose.ParseJws(req.raw, mode.value).Some? {
      var jws := Jose.ParseJws(req.raw, mode.value).value;
      AccountOnly(s, req.base, jws);
      NothingFinalized(s, req.base, req.path, jws.payload);
      var parsed := NormalizeIdentifiers(Json.Get(jws.payload, "identifiers"));
      if parsed.Ok? { NothingPlaced(s, req.base, parsed.value, tokens); }
    }
  }

  lemma NothingFinalized(s: State, base: string, path: string, payload: map<string, Json.Json>)
    requires Inv(s) && NothingValid(s)
    ensures Finalize(s, base, path, payload).0 == s
  {
    hide Inv, LastSegment, Promote, DecodeCsr, Acme.Issue, CommonNameFits;
    var url := FinalizedUrl(base, path);
    if url in s.orders { NotAllValid(s, url); }
  }

  lemma AccountOnly(s: State, base: string, jws: Jose.Jws)
    ensures NewAccount(s, base, jws).0.authzs == s.authzs && NewAccount(s, base, jws).0.orders == s.orders
  {
  }

  predicate Quiet(w: World) {
    NothingValid(w.server) && forall task :: task in w.tasks ==> !w.tasks[task].Checking?
  }

  lemma QuietStep(w: World, e: Event)
    requires WorldInv(w) && Quiet(w)
    ensures Quiet(Step(Never, w, e))
  {
    hide Inv, Receive, RouteOf, NonceText, SettleChallenge;
    if e.BodyRead? && e.task in w.tasks && w.tasks[e.task].Reading? {
      NothingHandled(w.server, w.tasks[e.task].req, e.tokens);
    }
  }

  lemma NothingCertified(s: State)
    requires Inv(s) && NothingValid(s)
    ensures s.certificates == map[]
  {
    hide AuthzsConsistent, OrdersKeyed, CertificatesNumbered, CertificatesUnshared, Advertised, Covered,
      ValidIdentifiers, NamesFor;
    forall c | c in s.certificates ensures false {
      var key := OwnerOf(s, c);
    }
  }

  /** With neither automatic approval nor a validator, no order is ever finalized and no
      certificate is ever issued. */
  lemma {:induction false} NothingIssuedWithoutApproval(events: seq<Event>)
    ensures Quiet(Run(Never, events))
    ensures Run(Never, events).server.certificates == map[]
  {
    hide Inv, Step, NothingValid;
    RunInv(Never, events);
    if events == [] {
      NothingAtStart();
    } else {
      var before := events[..|events| - 1];
      NothingIssuedWithoutApproval(before);
      RunInv(Never, before);
      QuietStep(Run(Never, before), events[|events| - 1]);
    }
    NothingCertified(Run(Never, events).server);
  }

  lemma NothingAtStart()
    ensures NothingValid(EMPTY)
  {
  }
}
