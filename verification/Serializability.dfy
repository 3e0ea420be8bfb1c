/** Interleaved runs of the responder are indistinguishable from the mock serving the same
    requests one at a time. */
module Serializability {
  import opened Wrappers
  import opened Json
  import opened Jose
  import opened Identifiers
  import opened CsrBinding
  import opened Routes
  import opened Acme
  import opened AcmeSafety
  import opened AcmeServer
  import opened ResponderRuns
  import opened MockServer

  /** A request as the mock serves it. */
  datatype Served = Served(task: nat, path: string, raw: Bytes, tokens: nat -> string)

  /** The requests in the order in which their handlers ran, oversized bodies left out. */
  function Linearization(approval: Approval, events: seq<Event>): seq<Served> {
    if events == [] then []
    else
      var before, e := events[..|events| - 1], events[|events| - 1];
      Linearization(approval, before) + ServedBy(Run(approval, before), e)
  }

  function ServedBy(w: World, e: Event): seq<Served> {
    if e.BodyRead? && e.task in w.tasks && w.tasks[e.task].Reading? && |w.tasks[e.task].req.raw| <= MAX_BODY_SIZE
    then [Served(e.task, w.tasks[e.task].req.path, w.tasks[e.task].req.raw, e.tokens)] else []
  }

  /** The mock's state after serving these requests in turn. */
  function MockRun(approval: Approval, base: string, served: seq<Served>): State
    requires approval != External
  {
    if served == [] then EMPTY
    else
      var front, last := served[..|served| - 1], served[|served| - 1];
      MockServe(approval, MockRun(approval, base, front), base, last.path, false, last.raw, last.tokens).0
  }

  /** The mock's answer to the last of these requests. */
  function MockAnswer(approval: Approval, base: string, served: seq<Served>): Response
    requires approval != External && served != []
  {
    var front, last := served[..|served| - 1], served[|served| - 1];
    MockServe(approval, MockRun(approval, base, front), base, last.path, false, last.raw, last.tokens).1
  }

  /** Equal except for how many nonces were drawn. */
  predicate SameResources(s: State, t: State) {
    s == t.(nonceCounter := s.nonceCounter)
  }

  // ---------------------------------------------------------------- nonces do not matter

  lemma FinalizeFrame(s: State, base: string, path: string, payload: map<string, Json>, n: nat)
    ensures Finalize(s.(nonceCounter := n), base, path, payload) ==
            (Finalize(s, base, path, payload).0.(nonceCounter := n), Finalize(s, base, path, payload).1)
  {
    hide DecodeCsr, Text.LastSegment, CertUrl, SignCsr, Promote, Issue;
    var url := base + "/order/" + Text.LastSegment(path);
    if url in s.orders {
      PromoteFrame(s, url, n);
      var promoted := Promote(s, url);
      var decoded := DecodeCsr(Get(payload, "csr"), promoted.orders[url].identifiers);
      if decoded.Some? {
        IssueFrame(promoted, base, url, SignCsr(decoded.value.0, decoded.value.1), n);
      }
    }
  }

  lemma PromoteFrame(s: State, url: string, n: nat)
    requires url in s.orders
    ensures Promote(s.(nonceCounter := n), url) == Promote(s, url).(nonceCounter := n)
    ensures url in Promote(s, url).orders
  {
  }

  lemma IssueFrame(s: State, base: string, url: string, certificate: Certificate, n: nat)
    requires url in s.orders
    ensures Issue(s.(nonceCounter := n), base, url, certificate) ==
            (Issue(s, base, url, certificate).0.(nonceCounter := n), Issue(s, base, url, certificate).1)
  {
    hide CertUrl;
  }

  lemma NewOrderFrame(s: State, base: string, payload: map<string, Json>, tokens: nat -> string, n: nat)
    ensures NewOrder(s.(nonceCounter := n), base, payload, tokens) ==
            (NewOrder(s, base, payload, tokens).0.(nonceCounter := n), NewOrder(s, base, payload, tokens).1)
  {
    hide NormalizeIdentifiers, MintAuthzs, StoreAuthzs, UrlsOf, OrderUrl, FinalizeUrl;
  }

  lemma NewAccountFrame(s: State, base: string, jws: Jws, n: nat)
    ensures NewAccount(s.(nonceCounter := n), base, jws) ==
            (NewAccount(s, base, jws).0.(nonceCounter := n), NewAccount(s, base, jws).1)
  {
  }

  lemma RespondFrame(approval: Approval, s: State, url: string, n: nat)
    ensures RespondChallenge(approval, s.(nonceCounter := n), url) ==
            (RespondChallenge(approval, s, url).0.(nonceCounter := n), RespondChallenge(approval, s, url).1)
  {
    hide FindChallenge, HttpHit;
  }

  lemma FetchOrderFrame(s: State, url: string, n: nat)
    ensures FetchOrder(s.(nonceCounter := n), url) == (FetchOrder(s, url).0.(nonceCounter := n), FetchOrder(s, url).1)
  {
  }

  /** What a request does and answers does not depend on the nonce counter. */
  lemma ServeFrame(approval: Approval, s: State, req: Request, tokens: nat -> string, n: nat)
    ensures Serve(approval, s.(nonceCounter := n), req, tokens) ==
            (Serve(approval, s, req, tokens).0.(nonceCounter := n), Serve(approval, s, req, tokens).1)
  {
    hide RouteOf, ParseJws, Finalize, NewOrder, NewAccount, RespondChallenge, FetchOrder;
    var mode := ModeOf(RouteOf(req.path));
    if mode.Some? && ParseJws(req.raw, mode.value).Some? {
      var jws := ParseJws(req.raw, mode.value).value;
      FinalizeFrame(s, req.base, req.path, jws.payload, n);
      NewOrderFrame(s, req.base, jws.payload, tokens, n);
      NewAccountFrame(s, req.base, jws, n);
      RespondFrame(approval, s, req.base + req.path, n);
      FetchOrderFrame(s, req.base + req.path, n);
    }
  }

  lemma NoWaiting(approval: Approval, s: State, req: Request, tokens: nat -> string)
    requires approval != External
    ensures Receive(approval, s, req, tokens).1.Answer?
  {
    hide RouteOf, ParseJws, Finalize, NewOrder, NewAccount, FetchOrder, FindChallenge, SetStatus, ChallengeAnswer;
  }

  lemma ModeOfNonce()
    ensures ModeOf(NewNonceRoute).None? && ModeOf(CaRoute).None?
  {
  }

  /** Reading a body of admissible size is answered as the mock answers it, and has the same
      effect unless the signature raises, for which the mock uses up a certificate number. */
  lemma ReceiveIsMock(approval: Approval, s: State, t: State, req: Request, tokens: nat -> string)
    requires approval != External && SameResources(s, t)
    requires |req.raw| <= MAX_BODY_SIZE && ModeOf(RouteOf(req.path)).Some?
    ensures var (s', outcome) := Receive(approval, s, req, tokens);
            var (t', response) := MockServe(approval, t, req.base, req.path, false, req.raw, tokens);
            && outcome == Answer(response)
            && (SameResources(s', t') <==> !response.Unhandled?)
  {
    hide Serve, RouteOf;
    NoWaiting(approval, s, req, tokens);
    ModeOfNonce();
    ServeFrame(approval, t, req, tokens, s.nonceCounter);
    ServeFrame(approval, t, req, tokens, t.nonceCounter + 1);
    assert req == Request(req.base, req.path, req.raw);
  }

  // ---------------------------------------------------------------- signatures that raise

  /** This event runs the finalization of an order that can be finalized, with a proper CSR
      for it, whose first identifier is too long for a common name. */
  ghost predicate RaisesAt(w: World, e: Event) {
    && e.BodyRead? && e.task in w.tasks && w.tasks[e.task].Reading?
    && var req := w.tasks[e.task].req;
    && |req.raw| <= MAX_BODY_SIZE && RouteOf(req.path) == FinalizeRoute
    && ParseJws(req.raw, ObjectMode).Some?
    && var url := FinalizedUrl(req.base, req.path);
    && Finalizable(w.server, url)
    && var ids := w.server.orders[url].identifiers;
    && HasProperCsr(Get(ParseJws(req.raw, ObjectMode).value.payload, "csr"), ids)
    && !FirstFits(ids)
  }

  lemma RaisesExactly(approval: Approval, w: World, e: Event)
    requires e.BodyRead? && e.task in w.tasks && w.tasks[e.task].Reading?
    ensures RaisesAt(w, e) <==> Receive(approval, w.server, w.tasks[e.task].req, e.tokens).1 == Answer(Unhandled)
  {
    hide RouteOf, ParseJws, AllValid, HasProperCsr, FirstFits, FinalizedUrl, Finalize, NewOrder, NewAccount,
      RespondChallenge, FetchOrder, FetchAuthz, FetchCertificate;
    var req := w.tasks[e.task].req;
    var mode := ModeOf(RouteOf(req.path));
    if mode.Some? && ParseJws(req.raw, mode.value).Some? {
      var jws := ParseJws(req.raw, mode.value).value;
      FinalizeExact(w.server, req.base, req.path, jws.payload);
      OnlyFinalizeRaises(approval, w.server, req.base, req.base + req.path, jws, e.tokens);
    }
  }

  /** No signature raises in the run. */
  ghost predicate NothingRaised(approval: Approval, events: seq<Event>) {
    forall i: nat :: i < |events| ==> !RaisesAt(Run(approval, events[..i]), events[i])
  }

  // ---------------------------------------------------------------- the theorem

  predicate OneBase(events: seq<Event>, base: string) {
    forall i :: 0 <= i < |events| && events[i].Arrive? ==> events[i].req.base == base
  }

  /** A finished request that read its body was either refused for its size or answered as
      the mock answers it at its place in the linearization. */
  predicate AnsweredAsMock(approval: Approval, base: string, served: seq<Served>, task: nat, phase: Phase, k: int)
    requires approval != External && phase.Finished?
  {
    && 0 <= k < |served|
    && served[k].task == task && served[k].path == phase.req.path && served[k].raw == phase.req.raw
    && phase.response == MockAnswer(approval, base, served[..k + 1])
  }

  ghost predicate Explained(approval: Approval, base: string, served: seq<Served>, task: nat, phase: Phase)
    requires approval != External
  {
    phase.Finished? && ModeOf(RouteOf(phase.req.path)).Some? ==>
      if |phase.req.raw| > MAX_BODY_SIZE then phase.response == Problem(400, MalformedProblem)
      else exists k :: AnsweredAsMock(approval, base, served, task, phase, k)
  }

  ghost predicate AllExplained(approval: Approval, base: string, served: seq<Served>, tasks: map<nat, Phase>)
    requires approval != External
  {
    forall task :: task in tasks ==>
      && Explained(approval, base, served, task, tasks[task])
      && tasks[task].req.base == base
      && !tasks[task].Checking?
      && (tasks[task].Reading? ==> ModeOf(RouteOf(tasks[task].req.path)).Some?)
  }

  lemma ExplainedLonger(approval: Approval, base: string, served: seq<Served>, more: seq<Served>,
                        tasks: map<nat, Phase>)
    requires approval != External && AllExplained(approval, base, served, tasks)
    ensures AllExplained(approval, base, served + more, tasks)
  {
    hide MockAnswer, RouteOf;
    forall task | task in tasks ensures Explained(approval, base, served + more, task, tasks[task]) {
      assert Explained(approval, base, served, task, tasks[task]);
      forall k | tasks[task].Finished? && AnsweredAsMock(approval, base, served, task, tasks[task], k)
        ensures AnsweredAsMock(approval, base, served + more, task, tasks[task], k)
      {
        assert (served + more)[..k + 1] == served[..k + 1];
      }
    }
  }

  /** Every run in which challenges are decided without a validator leaves the same
      accounts, orders, authorizations and certificates as the mock serving the linearized
      requests one at a time, as long as no signature raises, and every request that reads
      a body gets the mock's answer. */
  lemma {:induction false} Serializable(approval: Approval, base: string, events: seq<Event>)
    requires approval != External && OneBase(events, base) && NothingRaised(approval, events)
    ensures SameResources(Run(approval, events).server, MockRun(approval, base, Linearization(approval, events)))
    ensures AllExplained(approval, base, Linearization(approval, events), Run(approval, events).tasks)
  {
    hide Receive, MockServe, RouteOf, NonceText, AllExplained, SettleChallenge, Step, ServedBy, RaisesAt;
    if events == [] {
      NothingServed(approval, base);
    } else {
      var before, e := events[..|events| - 1], events[|events| - 1];
      NothingRaisedBefore(approval, events, |events| - 1);
      Serializable(approval, base, before);
      SerializableStep(approval, base, Run(approval, before), Linearization(approval, before), e);
    }
  }

  lemma NothingRaisedBefore(approval: Approval, events: seq<Event>, n: nat)
    requires n <= |events| && NothingRaised(approval, events)
    ensures NothingRaised(approval, events[..n])
    ensures n < |events| ==> !RaisesAt(Run(approval, events[..n]), events[n])
  {
    hide RaisesAt, Run;
    assert forall i: nat :: i < n ==> events[..n][..i] == events[..i];
  }

  lemma NothingServed(approval: Approval, base: string)
    requires approval != External
    ensures AllExplained(approval, base, [], map[])
  {
  }

  lemma SerializableStep(approval: Approval, base: string, w: World, served: seq<Served>, e: Event)
    requires approval != External && (e.Arrive? ==> e.req.base == base)
    requires SameResources(w.server, MockRun(approval, base, served))
    requires AllExplained(approval, base, served, w.tasks) && !RaisesAt(w, e)
    ensures SameResources(Step(approval, w, e).server, MockRun(approval, base, served + ServedBy(w, e)))
    ensures AllExplained(approval, base, served + ServedBy(w, e), Step(approval, w, e).tasks)
  {
    hide Receive, MockServe, RouteOf, NonceText, SettleChallenge, Explained, RaisesAt;
    var more := ServedBy(w, e);
    ExplainedLonger(approval, base, served, more, w.tasks);
    if e.BodyRead? && e.task in w.tasks && w.tasks[e.task].Reading? {
      BodyStep(approval, base, w, served, e);
    } else {
      assert served + more == served;
      if e.Arrive? && e.task !in w.tasks {
        ArrivedExplained(approval, base, served, e.task, e.req, NonceText(w.server.nonceCounter + 1));
      }
    }
  }

  lemma ArrivedExplained(approval: Approval, base: string, served: seq<Served>, task: nat, req: Request, nonce: string)
    requires approval != External
    ensures Explained(approval, base, served, task, Reading(req, nonce))
    ensures ModeOf(RouteOf(req.path)).None? ==>
            Explained(approval, base, served, task, Finished(req, nonce, Immediate(req)))
  {
    hide RouteOf;
  }

  lemma BodyStep(approval: Approval, base: string, w: World, served: seq<Served>, e: Event)
    requires approval != External && e.BodyRead? && e.task in w.tasks && w.tasks[e.task].Reading?
    requires SameResources(w.server, MockRun(approval, base, served))
    requires AllExplained(approval, base, served, w.tasks) && !RaisesAt(w, e)
    ensures SameResources(Step(approval, w, e).server, MockRun(approval, base, served + ServedBy(w, e)))
    ensures AllExplained(approval, base, served + ServedBy(w, e), Step(approval, w, e).tasks)
  {
    hide Serve, MockServe, RouteOf, Explained, Receive, RaisesAt;
    var phase := w.tasks[e.task];
    RaisesExactly(approval, w, e);
    var all := served + ServedBy(w, e);
    NoWaiting(approval, w.server, phase.req, e.tokens);
    ExplainedLonger(approval, base, served, ServedBy(w, e), w.tasks);
    var after := Step(approval, w, e);
    var response := Receive(approval, w.server, phase.req, e.tokens).1.response;
    assert after.tasks == w.tasks[e.task := Finished(phase.req, phase.nonce, response)];
    if |phase.req.raw| <= MAX_BODY_SIZE {
      assert all[..|all| - 1] == served;
      ReceiveIsMock(approval, w.server, MockRun(approval, base, served), phase.req, e.tokens);
      assert all[..|served| + 1] == all;
      assert AnsweredAsMock(approval, base, all, e.task, after.tasks[e.task], |served|);
      ExplainedBy(approval, base, all, e.task, after.tasks[e.task], |served|);
    } else {
      assert all == served;
      Oversized(approval, base, all, e.task, phase, w.server, e.tokens);
    }
  }

  lemma ExplainedBy(approval: Approval, base: string, served: seq<Served>, task: nat, phase: Phase, k: int)
    requires approval != External && phase.Finished? && |phase.req.raw| <= MAX_BODY_SIZE
    requires AnsweredAsMock(approval, base, served, task, phase, k)
    ensures Explained(approval, base, served, task, phase)
  {
    hide MockAnswer, RouteOf;
  }

  lemma Oversized(approval: Approval, base: string, served: seq<Served>, task: nat, phase: Phase, s: State,
                  tokens: nat -> string)
    requires approval != External && phase.Reading? && |phase.req.raw| > MAX_BODY_SIZE
    requires ModeOf(RouteOf(phase.req.path)).Some?
    ensures Receive(approval, s, phase.req, tokens) == (s, Answer(Problem(400, MalformedProblem)))
    ensures Explained(approval, base, served, task, Finished(phase.req, phase.nonce, Problem(400, MalformedProblem)))
  {
    hide Serve, RouteOf;
  }

  /** What happens to a request in a run in which the two had agreed so far. */
  lemma RaisedApart(approval: Approval, base: string, w: World, served: seq<Served>, e: Event)
    requires approval != External && RaisesAt(w, e)
    requires w.tasks[e.task].req.base == base && SameResources(w.server, MockRun(approval, base, served))
    ensures !SameResources(Step(approval, w, e).server, MockRun(approval, base, served + ServedBy(w, e)))
  {
    hide Serve, MockServe, RouteOf, Receive, Finalizable, DecodeCsr, FirstFits, FinalizedUrl, ParseJws;
    var phase := w.tasks[e.task];
    var all := served + ServedBy(w, e);
    NoWaiting(approval, w.server, phase.req, e.tokens);
    RaisesExactly(approval, w, e);
    assert all[..|all| - 1] == served;
    FinalizeReadsBody();
    ReceiveIsMock(approval, w.server, MockRun(approval, base, served), phase.req, e.tokens);
  }

  lemma FinalizeReadsBody()
    ensures ModeOf(FinalizeRoute) == Some(ObjectMode)
  {
  }

  lemma {:induction false} TasksOfBase(approval: Approval, base: string, events: seq<Event>)
    requires OneBase(events, base)
    ensures forall task :: task in Run(approval, events).tasks ==> Run(approval, events).tasks[task].req.base == base
  {
    hide Receive, SettleChallenge, RouteOf, NonceText;
    if events != [] { TasksOfBase(approval, base, events[..|events| - 1]); }
  }

  lemma LinearizationStep(approval: Approval, events: seq<Event>, i: nat)
    requires i < |events|
    ensures Linearization(approval, events[..i + 1]) ==
            Linearization(approval, events[..i]) + ServedBy(Run(approval, events[..i]), events[i])
  {
    assert events[..i + 1][..i] == events[..i];
  }

  /** The resources agree at every instant of a run exactly when no signature raises in it. */
  lemma SerializableExactly(approval: Approval, base: string, events: seq<Event>)
    requires approval != External && OneBase(events, base)
    ensures (forall i: nat :: i <= |events| ==> AgreeAfter(approval, base, events[..i])) <==>
            NothingRaised(approval, events)
  {
    hide Run, RaisesAt, MockRun, Linearization, Step, ServedBy, AllExplained, SameResources;
    if NothingRaised(approval, events) {
      forall i: nat | i <= |events| ensures AgreeAfter(approval, base, events[..i]) {
        NothingRaisedBefore(approval, events, i);
        Serializable(approval, base, events[..i]);
      }
    }
    if forall i: nat :: i <= |events| ==> AgreeAfter(approval, base, events[..i]) {
      forall i: nat | i < |events| ensures !RaisesAt(Run(approval, events[..i]), events[i]) {
        assert AgreeAfter(approval, base, events[..i]) && AgreeAfter(approval, base, events[..i + 1]);
        AgreeingStep(approval, base, events, i);
      }
    }
  }

  predicate AgreeAfter(approval: Approval, base: string, events: seq<Event>)
    requires approval != External
  {
    SameResources(Run(approval, events).server, MockRun(approval, base, Linearization(approval, events)))
  }

  lemma AgreeingStep(approval: Approval, base: string, events: seq<Event>, i: nat)
    requires approval != External && OneBase(events, base) && i < |events|
    requires AgreeAfter(approval, base, events[..i]) && AgreeAfter(approval, base, events[..i + 1])
    ensures !RaisesAt(Run(approval, events[..i]), events[i])
  {
    hide Run, RaisesAt, MockRun, Linearization, Step, ServedBy, SameResources;
    var w, served := Run(approval, events[..i]), Linearization(approval, events[..i]);
    TasksOfBase(approval, base, events[..i]);
    RunStep(approval, events, i);
    LinearizationStep(approval, events, i);
    if RaisesAt(w, events[i]) {
      RaisesInTask(w, events[i]);
      RaisedApart(approval, base, w, served, events[i]);
    }
  }

  lemma RaisesInTask(w: World, e: Event)
    requires RaisesAt(w, e)
    ensures e.BodyRead? && e.task in w.tasks
  {
    hide RouteOf, ParseJws, AllValid, HasProperCsr, FirstFits, FinalizedUrl;
  }

  /** The linearization only ever grows at its end, so a request answered before another
      arrives comes before it: real-time order is respected. */
  lemma {:induction false} LinearizationGrows(approval: Approval, events: seq<Event>, i: nat)
    requires i <= |events|
    ensures Linearization(approval, events[..i]) <= Linearization(approval, events)
    decreases |events|
  {
    hide Run, ServedBy;
    if i < |events| {
      var before := events[..|events| - 1];
      LinearizationGrows(approval, before, i);
      assert before[..i] == events[..i];
    } else {
      assert events[..i] == events;
    }
  }
}
