/** `issue` against the responder with its limit on request bodies: it succeeds exactly when
    every request it is going to make fits. */
module BodyLimit {
  import opened Wrappers
  import opened Identifiers
  import opened CsrBinding
  import opened Jose
  import opened Routes
  import opened Acme
  import opened AcmeSafety
  import opened AcmeServer
  import opened Renewal
  import opened IssueFlow
  import opened IssueWorlds
  import opened EndToEnd

  /** The k-th request is within the limit. */
  predicate Fits(scene: Scene, sent: Sent, k: nat) {
    |Raw(scene.wire, sent.url, sent.body, k)| <= 65_536
  }

  /** All of these requests, made in this order, are within the limit. */
  predicate AllFit(scene: Scene, sends: seq<Sent>) {
    forall i: nat :: i < |sends| ==> Fits(scene, sends[i], i + 1)
  }

  /** One request to the responder, its body limit included. */
  function LimitedExchange(scene: Scene, s: State, url: string, body: Body, k: nat): (State, Answer) {
    if !(scene.base <= url) then (s, Raised)
    else
      var request := Request(scene.base, url[|scene.base|..], Raw(scene.wire, url, body, k));
      var (after, outcome) := Receive(AutoApprove, s, request, scene.tokens(k));
      (after, if outcome.Answer? then AnswerTo(body, outcome.response, scene.root) else Raised)
  }

  function LimitedServerAfter(scene: Scene, t: Trace): State {
    if t == [] then scene.start
    else
      var before, last := LimitedServerAfter(scene, t[..|t| - 1]), t[|t| - 1];
      if last.Send? then LimitedExchange(scene, before, last.url, last.body, |Sends(t)|).0 else before
  }

  /** The responder as a world, its body limit included. */
  function LimitedWorld(scene: Scene): World {
    (t: Trace) =>
      if t == [] || !t[|t| - 1].Send? then Answer.Done
      else
        var last := t[|t| - 1];
        LimitedExchange(scene, LimitedServerAfter(scene, t[..|t| - 1]), last.url, last.body, |Sends(t)|).1
  }

  /** A request that fits is served; one that does not is refused. */
  lemma LimitExact(scene: Scene, s: State, sent: Sent, k: nat)
    ensures Fits(scene, sent, k) ==>
              LimitedExchange(scene, s, sent.url, sent.body, k) == Exchange(scene, s, sent.url, sent.body, k)
    ensures !Fits(scene, sent, k) ==> LimitedExchange(scene, s, sent.url, sent.body, k).1 == Raised
  {
    hide Raw, Serve, RouteOf, Fits;
    var url := sent.url;
    Limit(scene, sent, k);
    if scene.base <= url && !Fits(scene, sent, k) {
      var request := Request(scene.base, url[|scene.base|..], Raw(scene.wire, url, sent.body, k));
      OverLimit(s, request, scene.tokens(k), sent.body, scene.root);
    }
  }

  lemma Limit(scene: Scene, sent: Sent, k: nat)
    ensures Fits(scene, sent, k) <==> |Raw(scene.wire, sent.url, sent.body, k)| <= MAX_BODY_SIZE
  {
    hide Raw;
  }

  lemma OverLimit(s: State, request: Request, tokens: nat -> string, body: Body, root: Certificate)
    requires |request.raw| > MAX_BODY_SIZE
    ensures var outcome := Receive(AutoApprove, s, request, tokens).1;
            outcome.Answer? ==> AnswerTo(body, outcome.response, root) == Raised
  {
    hide RouteOf, Handle, ParseJws;
  }

  /** The requests so far all fit if the earlier ones and the last one do. */
  lemma FitSplit(scene: Scene, t: Trace)
    requires t != []
    ensures var last := t[|t| - 1];
            AllFit(scene, Sends(t)) <==>
              AllFit(scene, Sends(t[..|t| - 1])) && (last.Send? ==> Fits(scene, Sent(last.url, last.body), |Sends(t)|))
  {
    hide Fits;
    var before, sends := Sends(t[..|t| - 1]), Sends(t);
    assert before <= sends;
    var n: nat := |before|;
    if AllFit(scene, sends) {
      assert n < |sends| ==> Fits(scene, sends[n], n + 1);
      forall i: nat | i < |before| ensures Fits(scene, before[i], i + 1) { assert before[i] == sends[i]; }
    }
  }

  lemma {:induction false} ServersSame(scene: Scene, t: Trace)
    requires AllFit(scene, Sends(t))
    ensures LimitedServerAfter(scene, t) == ServerAfter(scene, t)
    ensures t != [] ==> LimitedWorld(scene)(t) == ResponderWorld(scene)(t)
  {
    hide AllFit, Fits, Exchange, LimitedExchange, Sends;
    if t != [] {
      var front, last := t[..|t| - 1], t[|t| - 1];
      FitSplit(scene, t);
      ServersSame(scene, front);
      if last.Send? { LimitExact(scene, ServerAfter(scene, front), Sent(last.url, last.body), |Sends(t)|); }
    }
  }

  lemma {:induction false} AllFitPrefix(scene: Scene, t: Trace, k: nat)
    requires k <= |t| && AllFit(scene, Sends(t))
    ensures AllFit(scene, Sends(t[..k]))
    decreases |t|
  {
    hide AllFit, Sends;
    if k < |t| {
      FitSplit(scene, t);
      assert t[..|t| - 1][..k] == t[..k];
      AllFitPrefix(scene, t[..|t| - 1], k);
    } else {
      assert t[..k] == t;
    }
  }

  lemma WorldsAgree(scene: Scene, t: Trace)
    requires AllFit(scene, Sends(t))
    ensures Agree(ResponderWorld(scene), LimitedWorld(scene), t, 0)
    ensures Agree(LimitedWorld(scene), ResponderWorld(scene), t, 0)
  {
    hide AllFit, ResponderWorld, LimitedWorld, Sends;
    forall k: nat | 0 < k <= |t| ensures ResponderWorld(scene)(t[..k]) == LimitedWorld(scene)(t[..k]) {
      AllFitPrefix(scene, t, k);
      ServersSame(scene, t[..k]);
    }
  }

  /** Requests that the limited responder answered were within its limit. */
  lemma {:induction false} AnsweredFit(scene: Scene, t: Trace)
    requires Answered(LimitedWorld(scene), t, 0)
    ensures AllFit(scene, Sends(t))
  {
    hide AllFit, Fits, LimitedExchange, Answered, Sends, LimitedServerAfter;
    if t == [] {
      NoSends(scene);
    } else {
      var last := t[|t| - 1];
      AnsweredSplit(LimitedWorld(scene), t);
      AnsweredFit(scene, t[..|t| - 1]);
      FitSplit(scene, t);
      if last.Send? {
        LimitExact(scene, LimitedServerAfter(scene, t[..|t| - 1]), Sent(last.url, last.body), |Sends(t)|);
      }
    }
  }

  lemma NoSends(scene: Scene)
    ensures AllFit(scene, Sends([]))
  {
  }

  lemma AnsweredSplit(world: World, t: Trace)
    requires Answered(world, t, 0) && t != []
    ensures Answered(world, t[..|t| - 1], 0) && (t[|t| - 1].Send? ==> !Fails(world(t)))
  {
    var front := t[..|t| - 1];
    assert t[..|t|] == t;
    forall k: nat | 0 < k <= |front| && front[k - 1].Send? ensures !Fails(world(front[..k])) {
      assert front[..k] == t[..k];
    }
  }

  /** With its body limit the responder lets `issue` succeed exactly when the first identifier
      fits a common name and every request of the list `RunRequests`, known beforehand, fits
      the limit; then the run is the one without the limit. */
  lemma IssueSucceedsWithinLimit(scene: Scene, patience: Patience, setup: Setup, accountUrl: Option<string>,
                                 values: seq<Value>)
    requires FaithfulWire(scene.wire) && Inv(scene.start)
    requires setup.newAccount == scene.base + "/new-account" && setup.newOrder == scene.base + "/new-order"
    requires Plan(setup, values).Some?
    requires forall key :: key in Plan(setup, values).value ==> !Plan(setup, values).value[key].kind.OtherType?
    ensures values != []
    ensures var limited := IssueRun(Env(LimitedWorld(scene), patience), [], setup, accountUrl, values);
            var requests := RunRequests(scene, setup, accountUrl.Some?, values, Plan(setup, values).value);
            && (limited.leaf.Some? <==>
                  |ValueText(values[0])| <= 64
                  && forall i: nat :: i < |requests| ==> Fits(scene, requests[i], i + 1))
            && (limited.leaf.Some? ==>
                  && limited == IssueRun(Env(ResponderWorld(scene), patience), [], setup, accountUrl, values)
                  && limited.leaf == Some(Certificate(NamesOf(values), setup.certKey))
                  && Sends(limited.trace) == requests)
  {
    hide IssueRun, ResponderWorld, LimitedWorld, Fits, Agree, Answered, FaithfulWire, Inv, Plan, NamesOf, Sends,
      RunRequests, ValueText;
    IssueSucceeds(scene, patience, setup, accountUrl, values);
    var unlimited := IssueRun(Env(ResponderWorld(scene), patience), [], setup, accountUrl, values);
    var limited := IssueRun(Env(LimitedWorld(scene), patience), [], setup, accountUrl, values);
    if AllFit(scene, Sends(unlimited.trace)) {
      WorldsAgree(scene, unlimited.trace);
      IssueSame(ResponderWorld(scene), LimitedWorld(scene), patience, [], setup, accountUrl, values);
    }
    if limited.leaf.Some? {
      SuccessAnswered(Env(LimitedWorld(scene), patience), [], setup, accountUrl, values);
      AnsweredFit(scene, limited.trace);
      WorldsAgree(scene, limited.trace);
      IssueSame(LimitedWorld(scene), ResponderWorld(scene), patience, [], setup, accountUrl, values);
    }
  }
}
