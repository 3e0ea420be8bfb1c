/** Over whole runs: no authorization is valid that was not approved, and accounts are found
    again by their key. */
module Approvals {
  import opened Wrappers
  import opened Text
  import Json
  import Jose
  import opened Identifiers
  import opened CsrBinding
  import opened Routes
  import opened Acme
  import opened AcmeSafety
  import opened AcmeServer
  import opened ResponderRuns

  // ---------------------------------------------------------------- approval

  /** This event approves the authorization: a challenge request for it when challenges are
      approved automatically, or a positive verdict on it from the validator. */
  predicate ApprovedAt(approval: Approval, w: World, e: Event, key: string) {
    match approval
    case AutoApprove =>
      && e.BodyRead? && e.task in w.tasks && w.tasks[e.task].Reading?
      && var req := w.tasks[e.task].req;
      && RouteOf(req.path) == ChallengeRoute
      && FindChallenge(w.server.authzs, w.server.authzKeys, req.base + req.path) == Some(key)
    case External => e.Verdict? && e.ok && e.task in w.tasks && w.tasks[e.task].Checking? && w.tasks[e.task].key == key
    case Never => false
  }

  predicate IsValid(s: State, key: string) {
    key in s.authzs && s.authzs[key].status == AuthzValid
  }

  /** Placing an order makes nothing valid. */
  lemma {:induction false} StoredNotValid(authzs: map<string, Authz>, minted: seq<Authz>, key: string)
    requires forall i :: 0 <= i < |minted| ==> minted[i].status == AuthzPending
    requires key in StoreAuthzs(authzs, minted) && StoreAuthzs(authzs, minted)[key].status == AuthzValid
    ensures key in authzs && authzs[key].status == AuthzValid
  {
    if minted != [] && key != minted[|minted| - 1].url { StoredNotValid(authzs, minted[..|minted| - 1], key); }
  }

  lemma PlacedNotValid(s: State, base: string, ids: seq<Identifier>, tokens: nat -> string, key: string)
    requires IsValid(PlaceOrder(s, base, ids, tokens).0, key)
    ensures IsValid(s, key)
  {
    hide OrderUrl, FinalizeUrl, AuthzUrl, ChallengeUrl, DnsChallengeUrl, StoreAuthzs;
    var minted := MintAuthzs(base, s.authzCounter, ids, tokens);
    forall i | 0 <= i < |minted| ensures minted[i].status == AuthzPending {
      assert minted[i] == MintAuthz(base, s.authzCounter + i + 1, ids[i], tokens(i));
    }
    StoredNotValid(s.authzs, minted, key);
  }

  lemma OrderedNotValid(s: State, base: string, payload: map<string, Json.Json>, tokens: nat -> string, key: string)
    requires IsValid(NewOrder(s, base, payload, tokens).0, key)
    ensures IsValid(s, key)
  {
    hide NormalizeIdentifiers, PlaceOrder, IsValid;
    var parsed := NormalizeIdentifiers(Json.Get(payload, "identifiers"));
    if parsed.Ok? { PlacedNotValid(s, base, parsed.value, tokens, key); }
  }

  lemma FinalizeKeepsAuthzs(s: State, base: string, path: string, payload: map<string, Json.Json>)
    ensures Finalize(s, base, path, payload).0.authzs == s.authzs
  {
    hide DecodeCsr, LastSegment, SignCsr, CertUrl, AllValid;
  }

  lemma OthersKeepAuthzs(s: State, base: string, jws: Jose.Jws, url: string)
    ensures NewAccount(s, base, jws).0.authzs == s.authzs
    ensures FetchOrder(s, url).0.authzs == s.authzs
  {
    hide AllValid;
  }

  /** A request makes an authorization valid only by answering its challenge when challenges
      are approved automatically. */
  lemma HandledApproval(approval: Approval, s: State, req: Request, jws: Jose.Jws, tokens: nat -> string, key: string)
    requires IsValid(Handle(approval, s, req, jws, tokens).0, key) && !IsValid(s, key)
    ensures approval == AutoApprove && RouteOf(req.path) == ChallengeRoute
    ensures FindChallenge(s.authzs, s.authzKeys, req.base + req.path) == Some(key)
  {
    hide RouteOf, NewOrder, NewAccount, Finalize, FetchOrder, FetchAuthz, FetchCertificate, RespondChallenge, IsValid;
    SameAuthzs(s, Handle(approval, s, req, jws, tokens).0, key);
    FinalizeKeepsAuthzs(s, req.base, req.path, jws.payload);
    OthersKeepAuthzs(s, req.base, jws, req.base + req.path);
    if RouteOf(req.path) == NewOrderRoute {
      OrderedNotValid(s, req.base, jws.payload, tokens, key);
    } else if RouteOf(req.path) == ChallengeRoute {
      ChallengeApproval(approval, s, req.base + req.path, key);
    }
  }

  lemma SameAuthzs(s: State, t: State, key: string)
    ensures s.authzs == t.authzs ==> (IsValid(s, key) <==> IsValid(t, key))
  {
  }

  lemma ChallengeApproval(approval: Approval, s: State, url: string, key: string)
    requires IsValid(RespondChallenge(approval, s, url).0, key) && !IsValid(s, key)
    ensures approval == AutoApprove && FindChallenge(s.authzs, s.authzKeys, url) == Some(key)
  {
    hide FindChallenge, HttpHit;
  }

  lemma ReceivedApproval(approval: Approval, s: State, req: Request, tokens: nat -> string, key: string)
    requires IsValid(Receive(approval, s, req, tokens).0, key) && !IsValid(s, key)
    ensures approval == AutoApprove && RouteOf(req.path) == ChallengeRoute
    ensures FindChallenge(s.authzs, s.authzKeys, req.base + req.path) == Some(key)
  {
    hide RouteOf, Handle, Jose.ParseJws, FindChallenge;
    var mode := ModeOf(RouteOf(req.path));
    if mode.Some? && Jose.ParseJws(req.raw, mode.value).Some? {
      var jws := Jose.ParseJws(req.raw, mode.value).value;
      if IsValid(Handle(approval, s, req, jws, tokens).0, key) { HandledApproval(approval, s, req, jws, tokens, key); }
    }
  }

  /** Only an approval makes an authorization valid that was not. */
  lemma StepApproval(approval: Approval, w: World, e: Event, key: string)
    requires IsValid(Step(approval, w, e).server, key) && !IsValid(w.server, key)
    requires forall task :: task in w.tasks && w.tasks[task].Checking? ==> approval == External
    ensures ApprovedAt(approval, w, e, key)
  {
    hide Receive, RouteOf, NonceText, FindChallenge, HttpHit;
    if e.BodyRead? && e.task in w.tasks && w.tasks[e.task].Reading? {
      ReceivedApproval(approval, w.server, w.tasks[e.task].req, e.tokens, key);
    }
  }

  predicate OnlyExternalWaits(approval: Approval, w: World) {
    forall task :: task in w.tasks && w.tasks[task].Checking? ==> approval == External
  }

  lemma {:induction false} WaitingIsExternal(approval: Approval, events: seq<Event>)
    ensures OnlyExternalWaits(approval, Run(approval, events))
  {
    hide Receive, SettleChallenge, RouteOf, NonceText, Inv;
    if events != [] {
      var before, e := events[..|events| - 1], events[|events| - 1];
      WaitingIsExternal(approval, before);
      RunInv(approval, before);
      var w := Run(approval, before);
      if e.BodyRead? && e.task in w.tasks && w.tasks[e.task].Reading? {
        ReceiveSafe(approval, w.server, w.tasks[e.task].req, e.tokens);
      }
    }
  }

  /** Over every run and in every approval mode: a valid authorization was approved by an
      event of that run. */
  lemma {:induction false} ValidWasApproved(approval: Approval, events: seq<Event>, key: string)
    requires IsValid(Run(approval, events).server, key)
    ensures exists i :: 0 <= i < |events| && ApprovedAt(approval, Run(approval, events[..i]), events[i], key)
  {
    hide Step, ApprovedAt, IsValid;
    NothingValidAtStart(key);
    if events != [] {
      var before, e := events[..|events| - 1], events[|events| - 1];
      if IsValid(Run(approval, before).server, key) {
        ValidWasApproved(approval, before, key);
        var i :| 0 <= i < |before| && ApprovedAt(approval, Run(approval, before[..i]), before[i], key);
        assert before[..i] == events[..i] && before[i] == events[i];
      } else {
        WaitingIsExternal(approval, before);
        StepApproval(approval, Run(approval, before), e, key);
        assert events[..|events| - 1] == before;
      }
    }
  }

  lemma NothingValidAtStart(key: string)
    ensures !IsValid(START.server, key)
  {
  }

  /** Together: every certificate the responder holds is for identifiers each of which had an
      authorization of its own that some earlier event of the run approved. */
  lemma CertifiedWasApproved(approval: Approval, events: seq<Event>, c: string)
    requires c in Run(approval, events).server.certificates
    ensures exists key, i :: Justified(approval, events, c, key, i)
              && forall j :: 0 <= j < |Run(approval, events).server.orders[key].authzUrls| ==>
                   Approved(approval, events[..i], Run(approval, events).server.orders[key].authzUrls[j])
  {
    hide Run, BecameReadyAt, CertificateOf, Approved;
    CertificatesWereValidated(approval, events, c);
    var key, i :| Justified(approval, events, c, key, i);
    var order := Run(approval, events).server.orders[key];
    forall j | 0 <= j < |order.authzUrls| ensures Approved(approval, events[..i], order.authzUrls[j]) {
      ValidAt(approval, events, i, order, j);
      ValidIsApproved(approval, events[..i], order.authzUrls[j]);
    }
  }

  /** Some event of this run approved the authorization. */
  ghost predicate Approved(approval: Approval, events: seq<Event>, key: string) {
    exists i :: 0 <= i < |events| && ApprovedAt(approval, Run(approval, events[..i]), events[i], key)
  }

  lemma ValidIsApproved(approval: Approval, events: seq<Event>, key: string)
    requires IsValid(Run(approval, events).server, key)
    ensures Approved(approval, events, key)
  {
    hide ApprovedAt, Run, IsValid;
    ValidWasApproved(approval, events, key);
  }

  lemma ValidAt(approval: Approval, events: seq<Event>, i: nat, order: Order, j: nat)
    requires i < |events| && BecameReadyAt(approval, events, i, order) && j < |order.authzUrls|
    ensures IsValid(Run(approval, events[..i]).server, order.authzUrls[j])
  {
    hide Run, Covered;
  }

  // ---------------------------------------------------------------- rejection

  /** The authorization and its challenge are settled by this verdict, and nothing else changed
      but who is answered. */
  predicate SettledBy(s: State, t: State, key: string, ok: bool) {
    && key in t.authzs
    && t.authzs[key].status == (if ok then AuthzValid else AuthzInvalid)
    && t.authzs[key].challengeStatus == (if ok then ChallengeValid else ChallengeInvalid)
    && t.authzs.Keys == s.authzs.Keys && (forall k :: k in s.authzs && k != key ==> t.authzs[k] == s.authzs[k])
    && t == s.(authzs := t.authzs)
  }

  lemma SettledChallenge(s: State, key: string, url: string, ok: bool)
    requires key in s.authzs
    ensures var (t, response) := SettleChallenge(s, key, url, ok);
            && SettledBy(s, t, key, ok) && response.ChallengeDoc?
            && response.challenge.status == (if ok then ChallengeValid else ChallengeInvalid)
  {
    hide HttpHit;
  }

  /** The verdict on a waiting challenge settles its authorization, valid or invalid, and the
      request is answered with the challenge's new status. */
  lemma VerdictSettles(approval: Approval, w: World, task: nat, ok: bool)
    requires task in w.tasks && w.tasks[task].Checking? && w.tasks[task].key in w.server.authzs
    ensures var t := Step(approval, w, Verdict(task, ok));
            && SettledBy(w.server, t.server, w.tasks[task].key, ok)
            && t.tasks[task].Finished? && t.tasks[task].response.ChallengeDoc?
            && t.tasks[task].response.challenge.status == (if ok then ChallengeValid else ChallengeInvalid)
  {
    hide SettleChallenge, SettledBy, Step;
    var phase := w.tasks[task];
    SettledChallenge(w.server, phase.key, phase.req.base + phase.req.path, ok);
    VerdictStep(approval, w, task, ok);
  }

  lemma VerdictStep(approval: Approval, w: World, task: nat, ok: bool)
    requires task in w.tasks && w.tasks[task].Checking? && w.tasks[task].key in w.server.authzs
    ensures var phase := w.tasks[task];
            var (s, response) := SettleChallenge(w.server, phase.key, phase.req.base + phase.req.path, ok);
            Step(approval, w, Verdict(task, ok)) ==
            World(s, w.tasks[task := Finished(phase.req, phase.nonce, response)])
  {
    hide SettleChallenge, Receive, RouteOf, NonceText;
  }

  predicate IsInvalid(s: State, key: string) {
    key in s.authzs && s.authzs[key].status == AuthzInvalid
  }

  /** This event is a negative verdict on the authorization. */
  predicate RejectedAt(w: World, e: Event, key: string) {
    e.Verdict? && !e.ok && e.task in w.tasks && w.tasks[e.task].Checking? && w.tasks[e.task].key == key
  }

  lemma {:induction false} StoredNotInvalid(authzs: map<string, Authz>, minted: seq<Authz>, key: string)
    requires forall i :: 0 <= i < |minted| ==> minted[i].status == AuthzPending
    requires key in StoreAuthzs(authzs, minted) && StoreAuthzs(authzs, minted)[key].status == AuthzInvalid
    ensures key in authzs && authzs[key].status == AuthzInvalid
  {
    if minted != [] && key != minted[|minted| - 1].url { StoredNotInvalid(authzs, minted[..|minted| - 1], key); }
  }

  lemma OrderedNotInvalid(s: State, base: string, payload: map<string, Json.Json>, tokens: nat -> string, key: string)
    requires IsInvalid(NewOrder(s, base, payload, tokens).0, key)
    ensures IsInvalid(s, key)
  {
    hide NormalizeIdentifiers, OrderUrl, FinalizeUrl, AuthzUrl, ChallengeUrl, DnsChallengeUrl, StoreAuthzs;
    var parsed := NormalizeIdentifiers(Json.Get(payload, "identifiers"));
    if parsed.Ok? {
      var minted := MintAuthzs(base, s.authzCounter, parsed.value, tokens);
      forall i | 0 <= i < |minted| ensures minted[i].status == AuthzPending {
        assert minted[i] == MintAuthz(base, s.authzCounter + i + 1, parsed.value[i], tokens(i));
      }
      StoredNotInvalid(s.authzs, minted, key);
    }
  }

  lemma RespondedNotInvalid(approval: Approval, s: State, url: string, key: string)
    requires IsInvalid(RespondChallenge(approval, s, url).0, key)
    ensures IsInvalid(s, key)
  {
    hide FindChallenge, HttpHit;
  }

  lemma ReceivedNotInvalid(approval: Approval, s: State, req: Request, tokens: nat -> string, key: string)
    requires IsInvalid(Receive(approval, s, req, tokens).0, key)
    ensures IsInvalid(s, key)
  {
    hide RouteOf, Jose.ParseJws, NewOrder, NewAccount, Finalize, FetchOrder, FetchAuthz, FetchCertificate,
      RespondChallenge;
    var mode := ModeOf(RouteOf(req.path));
    if mode.Some? && Jose.ParseJws(req.raw, mode.value).Some? {
      var jws := Jose.ParseJws(req.raw, mode.value).value;
      FinalizeKeepsAuthzs(s, req.base, req.path, jws.payload);
      OthersKeepAuthzs(s, req.base, jws, req.base + req.path);
      if RouteOf(req.path) == NewOrderRoute && IsInvalid(NewOrder(s, req.base, jws.payload, tokens).0, key) {
        OrderedNotInvalid(s, req.base, jws.payload, tokens, key);
      }
      if RouteOf(req.path) == ChallengeRoute
         && IsInvalid(RespondChallenge(approval, s, req.base + req.path).0, key) {
        RespondedNotInvalid(approval, s, req.base + req.path, key);
      }
    }
  }

  lemma SettledInvalid(s: State, t: State, settled: string, ok: bool, key: string)
    requires SettledBy(s, t, settled, ok) && IsInvalid(t, key) && !IsInvalid(s, key)
    ensures key == settled && !ok
  {
  }

  lemma StepRejection(approval: Approval, w: World, e: Event, key: string)
    requires IsInvalid(Step(approval, w, e).server, key) && !IsInvalid(w.server, key)
    ensures RejectedAt(w, e, key)
  {
    hide Receive, RouteOf, NonceText, SettleChallenge, SettledBy;
    if e.Verdict? && e.task in w.tasks && w.tasks[e.task].Checking? && w.tasks[e.task].key in w.server.authzs {
      var phase := w.tasks[e.task];
      SettledChallenge(w.server, phase.key, phase.req.base + phase.req.path, e.ok);
      SettledInvalid(w.server, Step(approval, w, e).server, phase.key, e.ok, key);
    }
    if e.BodyRead? && e.task in w.tasks && w.tasks[e.task].Reading? {
      ReceivedNotInvalid(approval, w.server, w.tasks[e.task].req, e.tokens, key);
    }
  }

  /** Over every run and in every approval mode: an invalid authorization was rejected by an
      event of that run. */
  lemma {:induction false} InvalidWasRejected(approval: Approval, events: seq<Event>, key: string)
    requires IsInvalid(Run(approval, events).server, key)
    ensures exists i :: 0 <= i < |events| && RejectedAt(Run(approval, events[..i]), events[i], key)
  {
    hide Step, RejectedAt, IsInvalid;
    NothingInvalidAtStart(key);
    if events != [] {
      var before, e := events[..|events| - 1], events[|events| - 1];
      if IsInvalid(Run(approval, before).server, key) {
        InvalidWasRejected(approval, before, key);
        var i :| 0 <= i < |before| && RejectedAt(Run(approval, before[..i]), before[i], key);
        assert before[..i] == events[..i] && before[i] == events[i];
      } else {
        StepRejection(approval, Run(approval, before), e, key);
        assert events[..|events| - 1] == before;
      }
    }
  }

  lemma NothingInvalidAtStart(key: string)
    ensures !IsInvalid(START.server, key)
  {
  }

  // ---------------------------------------------------------------- accounts

  /** A key that has an account keeps it: asking again, even for an existing account only,
      creates nothing and answers with the same URL and contact. */
  lemma AccountFoundAgain(s: State, base: string, jws: Jose.Jws, otherBase: string, again: Jose.Jws)
    requires NewAccount(s, base, jws).1.AccountDoc?
    requires Thumbprint(Json.Get(again.protected, "jwk")) == Thumbprint(Json.Get(jws.protected, "jwk"))
    ensures var (t, first) := NewAccount(s, base, jws);
            NewAccount(t, otherBase, again) == (t, AccountDoc(200, first.location, first.contact))
  {
    hide AccountUrl, Truthy;
    var thumbprint := Thumbprint(Json.Get(jws.protected, "jwk")).value;
    var t := NewAccount(s, base, jws).0;
    if FindAccount(s.accounts, thumbprint).None? {
      var account := t.accounts[|t.accounts| - 1];
      assert t.accounts == s.accounts + [account];
      FoundAtEnd(s.accounts, account);
    }
  }

  lemma {:induction false} FoundAtEnd(accounts: seq<Account>, account: Account)
    requires FindAccount(accounts, account.thumbprint).None?
    ensures FindAccount(accounts + [account], account.thumbprint) == Some(account)
  {
    if accounts == [] {
      assert accounts + [account] == [account];
    } else {
      assert (accounts + [account])[1..] == accounts[1..] + [account];
      FoundAtEnd(accounts[1..], account);
    }
  }

  /** Asking for an existing account only never creates one. */
  lemma ExistingOnlyCreatesNothing(s: State, base: string, jws: Jose.Jws)
    requires Truthy(Json.Get(jws.payload, "onlyReturnExisting"))
    ensures NewAccount(s, base, jws).0 == s
    ensures NewAccount(s, base, jws).1.AccountDoc? <==>
            && Thumbprint(Json.Get(jws.protected, "jwk")).Some?
            && exists i :: 0 <= i < |s.accounts| && s.accounts[i].thumbprint ==
                  Thumbprint(Json.Get(jws.protected, "jwk")).value
  {
    hide Truthy, AccountUrl;
    var thumbprint := Thumbprint(Json.Get(jws.protected, "jwk"));
    if thumbprint.Some? { FindAccountExact(s.accounts, thumbprint.value); }
  }

  lemma {:induction false} FindAccountExact(accounts: seq<Account>, thumbprint: string)
    ensures FindAccount(accounts, thumbprint).Some? <==>
            exists i :: 0 <= i < |accounts| && accounts[i].thumbprint == thumbprint
    ensures FindAccount(accounts, thumbprint).Some? ==>
              FindAccount(accounts, thumbprint).value in accounts
              && FindAccount(accounts, thumbprint).value.thumbprint == thumbprint
  {
    if accounts != [] && accounts[0].thumbprint != thumbprint {
      FindAccountExact(accounts[1..], thumbprint);
      assert forall i :: 1 <= i < |accounts| ==> accounts[i] == accounts[1..][i - 1];
    }
  }
}
