/** Interleaved runs of the responder with an external validator are indistinguishable from a
    server that decides each challenge at once, at the moment its verdict arrives. */
module ExternalRuns {
  import opened Wrappers
  import opened Json
  import opened Jose
  import opened Routes
  import opened Acme
  import opened AcmeSafety
  import opened AcmeServer
  import opened ResponderRuns
  import opened MockServer
  import opened Serializability

  // ---------------------------------------------------------------- deciding at once

  /** A request as it is served in its turn, and the verdict on the challenge it answers. */
  datatype Turn = Turn(task: nat, path: string, raw: Bytes, tokens: nat -> string, verdict: bool)

  /** The mock that approves, except for a challenge whose verdict is negative. */
  function DecidedServe(s: State, base: string, turn: Turn): (State, Response) {
    if turn.verdict then MockServe(AutoApprove, s, base, turn.path, false, turn.raw, turn.tokens)
    else
      var counted := s.(nonceCounter := s.nonceCounter + 1);
      var (t, outcome) := Serve(External, counted, Request(base, turn.path, turn.raw), turn.tokens);
      match outcome
      case Answer(response) => (UseNumber(t, response), response)
      case AwaitVerdict(key) =>
        if key in t.authzs then SettleChallenge(t, key, base + turn.path, false) else (t, NotFound)
  }

  function DecidedRun(base: string, turns: seq<Turn>): State {
    if turns == [] then EMPTY
    else DecidedServe(DecidedRun(base, turns[..|turns| - 1]), base, turns[|turns| - 1]).0
  }

  function DecidedAnswer(base: string, turns: seq<Turn>): Response
    requires turns != []
  {
    DecidedServe(DecidedRun(base, turns[..|turns| - 1]), base, turns[|turns| - 1]).1
  }

  function NoTokens(): nat -> string {
    _ => ""
  }

  /** The request that takes its turn at this event: one that is answered when its body is read
      takes it then, one that waits for a verdict when the verdict arrives. */
  function TurnsBy(w: World, e: Event): seq<Turn> {
    match e
    case Arrive(_, _) => []
    case BodyRead(task, tokens) =>
      if task in w.tasks && w.tasks[task].Reading? && |w.tasks[task].req.raw| <= MAX_BODY_SIZE
         && Receive(External, w.server, w.tasks[task].req, tokens).1.Answer?
      then [Turn(task, w.tasks[task].req.path, w.tasks[task].req.raw, tokens, true)] else []
    case Verdict(task, ok) =>
      if task in w.tasks && w.tasks[task].Checking? && w.tasks[task].key in w.server.authzs
      then [Turn(task, w.tasks[task].req.path, w.tasks[task].req.raw, NoTokens(), ok)] else []
  }

  /** The turns of a run, in order. */
  function TurnOrder(events: seq<Event>): seq<Turn> {
    if events == [] then []
    else
      var before, e := events[..|events| - 1], events[|events| - 1];
      TurnOrder(before) + TurnsBy(Run(External, before), e)
  }

  // ---------------------------------------------------------------- one request

  /** A request that is answered without waiting is answered as under automatic approval. */
  lemma AnsweredAlike(s: State, req: Request, tokens: nat -> string)
    requires Serve(External, s, req, tokens).1.Answer?
    ensures Serve(AutoApprove, s, req, tokens) == Serve(External, s, req, tokens)
  {
    hide RouteOf, ParseJws, Finalize, NewOrder, NewAccount, FetchOrder, FindChallenge, SetStatus, ChallengeAnswer;
  }

  /** A request that waits is for a challenge the search finds, and has changed nothing. */
  predicate Waits(s: State, req: Request, key: string) {
    && RouteOf(req.path) == ChallengeRoute && ParseJws(req.raw, ObjectMode).Some?
    && FindChallenge(s.authzs, s.authzKeys, req.base + req.path) == Some(key) && key in s.authzs
  }

  lemma WaitingExactly(s: State, req: Request, tokens: nat -> string, key: string)
    ensures Serve(External, s, req, tokens).1 == AwaitVerdict(key) <==> Waits(s, req, key)
    ensures Waits(s, req, key) ==> Serve(External, s, req, tokens).0 == s
  {
    hide RouteOf, ParseJws, Finalize, NewOrder, NewAccount, FetchOrder, FindChallenge, SetStatus, ChallengeAnswer;
  }

  /** Approving at once is settling at once with a positive verdict. */
  lemma ApprovedAtOnce(s: State, req: Request, tokens: nat -> string, key: string)
    requires Waits(s, req, key)
    ensures var (t, response) := SettleChallenge(s, key, req.base + req.path, true);
            Serve(AutoApprove, s, req, tokens) == (t, Outcome.Answer(response)) && !response.Unhandled?
  {
    hide RouteOf, ParseJws, FindChallenge, RespondChallenge, SettleChallenge, NewAccount, NewOrder, FetchAuthz,
      Finalize, FetchOrder, FetchCertificate;
    RespondsAtOnce(s, req.base + req.path, key);
  }

  lemma RespondsAtOnce(s: State, url: string, key: string)
    requires FindChallenge(s.authzs, s.authzKeys, url) == Some(key) && key in s.authzs
    ensures var (t, response) := SettleChallenge(s, key, url, true);
            RespondChallenge(AutoApprove, s, url) == (t, Outcome.Answer(response)) && !response.Unhandled?
  {
    hide FindChallenge, HttpHit, SetStatus;
  }

  lemma SettleFrame(s: State, key: string, url: string, ok: bool, n: nat)
    requires key in s.authzs
    ensures SettleChallenge(s.(nonceCounter := n), key, url, ok) ==
            (SettleChallenge(s, key, url, ok).0.(nonceCounter := n), SettleChallenge(s, key, url, ok).1)
  {
    hide HttpHit;
  }

  lemma WaitsFrame(s: State, t: State, req: Request, key: string)
    requires SameResources(s, t) && Waits(s, req, key)
    ensures Waits(t, req, key) && Waits(t.(nonceCounter := t.nonceCounter + 1), req, key)
  {
    hide RouteOf, ParseJws, FindChallenge;
  }

  /** Deciding a waiting request in its turn does what its verdict does to the responder. */
  lemma VerdictIsTurn(s: State, t: State, req: Request, key: string, task: nat, ok: bool)
    requires SameResources(s, t) && Waits(s, req, key)
    ensures var (s', response) := SettleChallenge(s, key, req.base + req.path, ok);
            var decided := DecidedServe(t, req.base, Turn(task, req.path, req.raw, NoTokens(), ok));
            SameResources(s', decided.0) && response == decided.1
  {
    hide RouteOf, ParseJws, FindChallenge, Serve, SettleChallenge;
    WaitsFrame(s, t, req, key);
    var counted := t.(nonceCounter := t.nonceCounter + 1);
    assert req == Request(req.base, req.path, req.raw);
    SettleFrame(s, key, req.base + req.path, ok, counted.nonceCounter);
    assert s.(nonceCounter := counted.nonceCounter) == counted;
    if ok {
      ApprovedAtOnce(counted, req, NoTokens(), key);
      NotImmediate();
    } else {
      WaitingExactly(counted, req, NoTokens(), key);
    }
  }

  lemma NotImmediate()
    ensures ChallengeRoute != CaRoute && ChallengeRoute != NewNonceRoute
  {
  }

  // ---------------------------------------------------------------- what is waiting stays found

  /** Every waiting request is for the authorization its challenge URL finds. */
  predicate AllWait(w: World) {
    forall task :: task in w.tasks && w.tasks[task].Checking? ==>
      Waits(w.server, w.tasks[task].req, w.tasks[task].key) && |w.tasks[task].req.raw| <= MAX_BODY_SIZE
  }

  lemma WaitsLater(s: State, t: State, req: Request, key: string)
    requires Inv(s) && Inv(t) && Evolves(s, t) && Waits(s, req, key)
    ensures Waits(t, req, key)
  {
    hide Inv, RouteOf, ParseJws, FindChallenge, OrderEvolves, AuthzEvolves, Offers;
    var url := req.base + req.path;
    ServedChallenges(s, key, url);
    OffersKept(s.authzs[key], t.authzs[key], url);
    ServedChallenges(t, key, url);
  }

  lemma OffersKept(before: Authz, after: Authz, url: string)
    requires AuthzEvolves(before, after)
    ensures Offers(before, url) <==> Offers(after, url)
  {
    hide Offers;
    OffersHits(before, url);
    OffersHits(after, url);
  }

  lemma AllWaitStep(w: World, e: Event)
    requires WorldInv(w) && AllWait(w)
    ensures AllWait(Step(External, w, e))
  {
    hide Inv, Evolves, Waits, RouteOf, NonceText, SettleChallenge, Serve;
    var after := Step(External, w, e);
    StepSafe(External, w, e);
    forall task | task in after.tasks && after.tasks[task].Checking?
      ensures Waits(after.server, after.tasks[task].req, after.tasks[task].key)
      ensures |after.tasks[task].req.raw| <= MAX_BODY_SIZE
    {
      if task in w.tasks && w.tasks[task] == after.tasks[task] {
        WaitsLater(w.server, after.server, w.tasks[task].req, w.tasks[task].key);
      } else {
        BeginsToWait(w, e, task);
      }
    }
  }

  lemma BeginsToWait(w: World, e: Event, task: nat)
    requires var after := Step(External, w, e);
             task in after.tasks && after.tasks[task].Checking?
               && !(task in w.tasks && w.tasks[task] == after.tasks[task])
    ensures var after := Step(External, w, e);
            && Waits(after.server, after.tasks[task].req, after.tasks[task].key)
            && |after.tasks[task].req.raw| <= MAX_BODY_SIZE
  {
    hide ParseJws, FindChallenge, RouteOf, NonceText, SettleChallenge, Serve;
    assert e.BodyRead? && e.task == task;
    var phase := w.tasks[task];
    assert Receive(External, w.server, phase.req, e.tokens).1.AwaitVerdict?;
    WaitingExactly(w.server, phase.req, e.tokens, Receive(External, w.server, phase.req, e.tokens).1.key);
  }

  // ---------------------------------------------------------------- the theorem

  predicate AnsweredInTurn(base: string, turns: seq<Turn>, task: nat, phase: Phase, k: int)
    requires phase.Finished?
  {
    && 0 <= k < |turns|
    && turns[k].task == task && turns[k].path == phase.req.path && turns[k].raw == phase.req.raw
    && phase.response == DecidedAnswer(base, turns[..k + 1])
  }

  /** A finished request that read its body was refused for its size, or answered in its turn. */
  ghost predicate TakenInTurn(base: string, turns: seq<Turn>, task: nat, phase: Phase) {
    phase.Finished? && ModeOf(RouteOf(phase.req.path)).Some? ==>
      if |phase.req.raw| > MAX_BODY_SIZE then phase.response == Problem(400, MalformedProblem)
      else exists k :: AnsweredInTurn(base, turns, task, phase, k)
  }

  ghost predicate AllInTurn(base: string, turns: seq<Turn>, tasks: map<nat, Phase>) {
    forall task :: task in tasks ==>
      && TakenInTurn(base, turns, task, tasks[task])
      && tasks[task].req.base == base
      && (tasks[task].Reading? ==> ModeOf(RouteOf(tasks[task].req.path)).Some?)
  }

  lemma InTurnLonger(base: string, turns: seq<Turn>, more: seq<Turn>, tasks: map<nat, Phase>)
    requires AllInTurn(base, turns, tasks)
    ensures AllInTurn(base, turns + more, tasks)
  {
    hide DecidedAnswer, RouteOf;
    forall task | task in tasks ensures TakenInTurn(base, turns + more, task, tasks[task]) {
      assert TakenInTurn(base, turns, task, tasks[task]);
      forall k | tasks[task].Finished? && AnsweredInTurn(base, turns, task, tasks[task], k)
        ensures AnsweredInTurn(base, turns + more, task, tasks[task], k)
      {
        assert (turns + more)[..k + 1] == turns[..k + 1];
      }
    }
  }

  lemma TurnAdded(base: string, turns: seq<Turn>, turn: Turn)
    ensures DecidedRun(base, turns + [turn]) == DecidedServe(DecidedRun(base, turns), base, turn).0
    ensures DecidedAnswer(base, turns + [turn]) == DecidedServe(DecidedRun(base, turns), base, turn).1
  {
    hide DecidedServe;
    assert (turns + [turn])[..|turns|] == turns;
  }

  lemma TakesTurn(base: string, turns: seq<Turn>, turn: Turn, phase: Phase)
    requires phase.Finished? && |phase.req.raw| <= MAX_BODY_SIZE
    requires turn.path == phase.req.path && turn.raw == phase.req.raw
    requires phase.response == DecidedServe(DecidedRun(base, turns), base, turn).1
    ensures TakenInTurn(base, turns + [turn], turn.task, phase)
    ensures DecidedRun(base, turns + [turn]) == DecidedServe(DecidedRun(base, turns), base, turn).0
  {
    hide DecidedServe, DecidedRun, DecidedAnswer, RouteOf;
    var all := turns + [turn];
    TurnAdded(base, turns, turn);
    assert all[..|turns| + 1] == all;
    assert AnsweredInTurn(base, all, turn.task, phase, |turns|);
  }

  /** Reading a body that is answered at once. */
  lemma BodyInTurn(base: string, w: World, turns: seq<Turn>, task: nat, tokens: nat -> string)
    requires task in w.tasks && w.tasks[task].Reading? && w.tasks[task].req.base == base
    requires |w.tasks[task].req.raw| <= MAX_BODY_SIZE && ModeOf(RouteOf(w.tasks[task].req.path)).Some?
    requires Receive(External, w.server, w.tasks[task].req, tokens).1.Answer? && !RaisesAt(w, BodyRead(task, tokens))
    requires SameResources(w.server, DecidedRun(base, turns))
    ensures var req := w.tasks[task].req;
            var (server, outcome) := Receive(External, w.server, req, tokens);
            var decided := DecidedServe(DecidedRun(base, turns), base, Turn(task, req.path, req.raw, tokens, true));
            SameResources(server, decided.0) && outcome.response == decided.1
  {
    hide RouteOf, Serve, MockServe, RaisesAt, DecidedRun;
    var req := w.tasks[task].req;
    RaisesExactly(External, w, BodyRead(task, tokens));
    AnsweredAlike(w.server, req, tokens);
    ReceiveIsMock(AutoApprove, w.server, DecidedRun(base, turns), req, tokens);
  }

  lemma InTurnStep(base: string, w: World, turns: seq<Turn>, e: Event)
    requires AllWait(w) && AllInTurn(base, turns, w.tasks) && (e.Arrive? ==> e.req.base == base)
    requires SameResources(w.server, DecidedRun(base, turns)) && !RaisesAt(w, e)
    ensures SameResources(Step(External, w, e).server, DecidedRun(base, turns + TurnsBy(w, e)))
    ensures AllInTurn(base, turns + TurnsBy(w, e), Step(External, w, e).tasks)
  {
    hide RouteOf, Serve, MockServe, RaisesAt, DecidedRun, DecidedServe, NonceText, SettleChallenge, TakenInTurn, Waits,
      Receive, SameResources;
    InTurnLonger(base, turns, TurnsBy(w, e), w.tasks);
    match e
    case Arrive(task, req) =>
      assert turns + [] == turns;
      Arriving(w.server);
      SameThrough(w.server, w.server.(nonceCounter := w.server.nonceCounter + 1), DecidedRun(base, turns));
      if task !in w.tasks { ArrivedInTurn(base, turns, task, req, NonceText(w.server.nonceCounter + 1)); }
    case BodyRead(task, tokens) =>
      if task in w.tasks && w.tasks[task].Reading? {
        ReadInTurn(base, w, turns, task, tokens);
      } else {
        assert turns + [] == turns;
      }
    case Verdict(task, ok) =>
      if task in w.tasks && w.tasks[task].Checking? && w.tasks[task].key in w.server.authzs {
        var phase := w.tasks[task];
        VerdictIsTurn(w.server, DecidedRun(base, turns), phase.req, phase.key, task, ok);
        var response := SettleChallenge(w.server, phase.key, phase.req.base + phase.req.path, ok).1;
        TakesTurn(base, turns, Turn(task, phase.req.path, phase.req.raw, NoTokens(), ok),
                  Finished(phase.req, phase.nonce, response));
      } else {
        assert turns + [] == turns;
      }
  }

  lemma Arriving(s: State)
    ensures SameResources(s.(nonceCounter := s.nonceCounter + 1), s)
  {
  }

  lemma SameThrough(s: State, t: State, u: State)
    requires SameResources(s, u) && SameResources(t, s)
    ensures SameResources(t, u)
  {
  }

  lemma ArrivedInTurn(base: string, turns: seq<Turn>, task: nat, req: Request, nonce: string)
    ensures TakenInTurn(base, turns, task, Reading(req, nonce))
    ensures ModeOf(RouteOf(req.path)).None? ==> TakenInTurn(base, turns, task, Finished(req, nonce, Immediate(req)))
  {
    hide RouteOf;
  }

  lemma ReadInTurn(base: string, w: World, turns: seq<Turn>, task: nat, tokens: nat -> string)
    requires AllInTurn(base, turns, w.tasks) && task in w.tasks && w.tasks[task].Reading?
    requires SameResources(w.server, DecidedRun(base, turns)) && !RaisesAt(w, BodyRead(task, tokens))
    ensures var e := BodyRead(task, tokens);
            && SameResources(Step(External, w, e).server, DecidedRun(base, turns + TurnsBy(w, e)))
            && AllInTurn(base, turns + TurnsBy(w, e), Step(External, w, e).tasks)
  {
    hide RouteOf, Serve, MockServe, RaisesAt, DecidedRun, DecidedServe, TakenInTurn, SameResources, Receive;
    var e, phase := BodyRead(task, tokens), w.tasks[task];
    var (server, outcome) := Receive(External, w.server, phase.req, tokens);
    InTurnLonger(base, turns, TurnsBy(w, e), w.tasks);
    if |phase.req.raw| > MAX_BODY_SIZE {
      assert turns + [] == turns;
      TooLarge(base, turns, task, phase, w.server, tokens);
    } else if outcome.Answer? {
      BodyInTurn(base, w, turns, task, tokens);
      TakesTurn(base, turns, Turn(task, phase.req.path, phase.req.raw, tokens, true),
                Finished(phase.req, phase.nonce, outcome.response));
    } else {
      assert turns + [] == turns;
      NothingChanged(w.server, phase.req, tokens);
      StillWaiting(base, turns, task, Checking(phase.req, phase.nonce, outcome.key));
    }
  }

  lemma TooLarge(base: string, turns: seq<Turn>, task: nat, phase: Phase, s: State, tokens: nat -> string)
    requires phase.Reading? && |phase.req.raw| > MAX_BODY_SIZE && ModeOf(RouteOf(phase.req.path)).Some?
    ensures Receive(External, s, phase.req, tokens) == (s, Outcome.Answer(Problem(400, MalformedProblem)))
    ensures TakenInTurn(base, turns, task, Finished(phase.req, phase.nonce, Problem(400, MalformedProblem)))
  {
    hide RouteOf, Serve;
  }

  lemma NothingChanged(s: State, req: Request, tokens: nat -> string)
    requires Receive(External, s, req, tokens).1.AwaitVerdict?
    ensures Receive(External, s, req, tokens).0 == s
  {
    hide Serve, Waits, RouteOf;
    WaitingExactly(s, req, tokens, Receive(External, s, req, tokens).1.key);
  }

  lemma StillWaiting(base: string, turns: seq<Turn>, task: nat, phase: Phase)
    requires !phase.Finished?
    ensures TakenInTurn(base, turns, task, phase)
  {
  }

  /** Every run with an external validator in which no signature raises leaves the resources of
      the server that decides each challenge at once, serving the requests in the order of their
      turns, and every request that reads a body gets that server's answer. A validator's delay
      is not seen: its verdict acts as if it had been given when it arrived. */
  lemma {:induction false} SerializableExternally(base: string, events: seq<Event>)
    requires OneBase(events, base) && NothingRaised(External, events)
    ensures SameResources(Run(External, events).server, DecidedRun(base, TurnOrder(events)))
    ensures AllInTurn(base, TurnOrder(events), Run(External, events).tasks)
    ensures AllWait(Run(External, events))
  {
    hide Step, DecidedRun, AllInTurn, AllWait, RaisesAt, TurnsBy, Inv, SameResources, WorldInv;
    if events == [] {
      NothingInTurn(base);
    } else {
      var before, e := events[..|events| - 1], events[|events| - 1];
      NothingRaisedBefore(External, events, |events| - 1);
      SerializableExternally(base, before);
      RunInv(External, before);
      InTurnStep(base, Run(External, before), TurnOrder(before), e);
      AllWaitStep(Run(External, before), e);
    }
  }

  lemma NothingInTurn(base: string)
    ensures SameResources(START.server, DecidedRun(base, [])) && AllInTurn(base, [], START.tasks) && AllWait(START)
  {
  }

  /** The requests of these turns, as the mock serves them. */
  function ServedOf(turns: seq<Turn>): seq<Served> {
    if turns == [] then []
    else
      var last := turns[|turns| - 1];
      ServedOf(turns[..|turns| - 1]) + [Served(last.task, last.path, last.raw, last.tokens)]
  }

  predicate AllPositive(turns: seq<Turn>) {
    forall i :: 0 <= i < |turns| ==> turns[i].verdict
  }

  lemma PositiveTurn(s: State, base: string, turn: Turn)
    requires turn.verdict
    ensures DecidedServe(s, base, turn) ==
            MockServe(AutoApprove, s, base, turn.path, false, turn.raw, turn.tokens)
  {
    hide MockServe, Serve, SettleChallenge;
  }

  lemma {:induction false} PositiveIsMock(base: string, turns: seq<Turn>)
    requires AllPositive(turns)
    ensures DecidedRun(base, turns) == MockRun(AutoApprove, base, ServedOf(turns))
  {
    hide MockServe, DecidedServe;
    if turns != [] {
      PositiveIsMock(base, turns[..|turns| - 1]);
      PositiveTurn(DecidedRun(base, turns[..|turns| - 1]), base, turns[|turns| - 1]);
      var all := ServedOf(turns);
      assert all[..|all| - 1] == ServedOf(turns[..|turns| - 1]);
    }
  }

  /** With positive verdicts only, that server is the auto-approving mock. */
  lemma ApprovedExternally(base: string, events: seq<Event>)
    requires OneBase(events, base) && NothingRaised(External, events) && AllPositive(TurnOrder(events))
    ensures SameResources(Run(External, events).server, MockRun(AutoApprove, base, ServedOf(TurnOrder(events))))
  {
    hide Run, DecidedRun, MockRun, AllInTurn, SameResources, NothingRaised;
    SerializableExternally(base, events);
    PositiveIsMock(base, TurnOrder(events));
  }
}
