/** Over whole runs: every certificate rests on a request that was signed with its own key and
    was for its order. */
module CertifiedRequests {
  import opened Wrappers
  import opened Text
  import opened Json
  import opened Jose
  import opened Identifiers
  import opened CsrBinding
  import opened Routes
  import opened Acme
  import opened AcmeSafety
  import opened AcmeServer
  import opened ResponderRuns

  // ---------------------------------------------------------------- one event

  /** This event reads a request to finalize, whose body could be parsed. */
  predicate Finalizing(w: World, e: Event) {
    && e.BodyRead? && e.task in w.tasks && w.tasks[e.task].Reading?
    && var req := w.tasks[e.task].req;
    && RouteOf(req.path) == FinalizeRoute && |req.raw| <= MAX_BODY_SIZE && ParseJws(req.raw, ObjectMode).Some?
  }

  /** The URL of the order to finalize. */
  function OrderAsked(w: World, e: Event): string
    requires Finalizing(w, e)
  {
    FinalizedUrl(w.tasks[e.task].req.base, w.tasks[e.task].req.path)
  }

  /** The payload's `csr` field. */
  function CsrField(w: World, e: Event): Json
    requires Finalizing(w, e)
  {
    Get(ParseJws(w.tasks[e.task].req.raw, ObjectMode).value.payload, "csr")
  }

  lemma FinalizingStep(approval: Approval, w: World, e: Event)
    requires Finalizing(w, e)
    ensures var req := w.tasks[e.task].req;
            var (t, response) := Finalize(w.server, req.base, req.path, ParseJws(req.raw, ObjectMode).value.payload);
            Step(approval, w, e) ==
            World(t, w.tasks[e.task := Finished(req, w.tasks[e.task].nonce, response)])
  {
    hide RouteOf, ParseJws, Finalize, NewAccount, NewOrder, RespondChallenge, FetchOrder, FetchAuthz, FetchCertificate,
      SettleChallenge, NonceText, Receive;
    HandledFinalize(approval, w.server, w.tasks[e.task].req, e.tokens);
  }

  lemma HandledFinalize(approval: Approval, s: State, req: Request, tokens: nat -> string)
    requires RouteOf(req.path) == FinalizeRoute && |req.raw| <= MAX_BODY_SIZE && ParseJws(req.raw, ObjectMode).Some?
    ensures var (t, response) := Finalize(s, req.base, req.path, ParseJws(req.raw, ObjectMode).value.payload);
            Receive(approval, s, req, tokens) == (t, Answer(response))
  {
    hide RouteOf, ParseJws, Finalize, NewAccount, NewOrder, RespondChallenge, FetchOrder, FetchAuthz, FetchCertificate;
  }

  /** What the responder answers. */
  function AnswerOf(approval: Approval, w: World, e: Event): Response
    requires Finalizing(w, e)
  {
    FinalizingStep(approval, w, e);
    Step(approval, w, e).tasks[e.task].response
  }

  /** A request to finalize an order that can be finalized is answered with badCSR exactly
      when it carries no proper CSR for the order, and then nothing is issued; otherwise it
      gets a certificate with the CSR's key, unless the first identifier is too long. */
  lemma FinalizationAnswered(approval: Approval, w: World, e: Event)
    requires Finalizing(w, e) && Finalizable(w.server, OrderAsked(w, e))
    ensures var ids := w.server.orders[OrderAsked(w, e)].identifiers;
            && (AnswerOf(approval, w, e) == Problem(400, BadCsr) <==> !HasProperCsr(CsrField(w, e), ids))
            && (!HasProperCsr(CsrField(w, e), ids) ==>
                  && Step(approval, w, e).server.certificates == w.server.certificates
                  && Step(approval, w, e).server == Promote(w.server, OrderAsked(w, e)))
    ensures var ids, base := w.server.orders[OrderAsked(w, e)].identifiers, w.tasks[e.task].req.base;
            forall der :: ValidIdentifiers(ids) && ProperCsr(CsrField(w, e), der, ids) && FirstFits(ids) ==>
              IssuedTo(Step(approval, w, e).server, OrderAsked(w, e), CertUrl(base, w.server.certCounter + 1), ids,
                       LoadCsr(der).value.key)
  {
    hide RouteOf, ParseJws, Finalize, HasProperCsr, BindsTo, FirstFits, ValidIdentifiers, IssuedTo, CertUrl, Step,
      AllValid, LastSegment, FinalizedUrl;
    var req := w.tasks[e.task].req;
    var payload := ParseJws(req.raw, ObjectMode).value.payload;
    FinalizingStep(approval, w, e);
    FinalizeExact(w.server, req.base, req.path, payload);
    var ids := w.server.orders[OrderAsked(w, e)].identifiers;
    forall der | ValidIdentifiers(ids) && ProperCsr(CsrField(w, e), der, ids) && FirstFits(ids)
      ensures IssuedTo(Step(approval, w, e).server, OrderAsked(w, e), CertUrl(req.base, w.server.certCounter + 1), ids,
                       LoadCsr(der).value.key)
    {
      FinalizeIssues(w.server, req.base, req.path, payload, OrderAsked(w, e), der);
    }
  }

  // ---------------------------------------------------------------- where certificates come from

  /** This event finalizes the order with these bytes as its proper CSR. */
  predicate FinalizedAt(w: World, e: Event, url: string, ids: seq<Identifier>, der: Bytes) {
    && Finalizing(w, e) && OrderAsked(w, e) == url
    && Finalizable(w.server, url) && w.server.orders[url].identifiers == ids
    && ProperCsr(CsrField(w, e), der, ids)
  }

  lemma FinalizeAddsOne(s: State, base: string, path: string, payload: map<string, Json>, c: string)
    requires c in Finalize(s, base, path, payload).0.certificates && c !in s.certificates
    ensures Finalize(s, base, path, payload).1.OrderDoc? && c == CertUrl(base, s.certCounter + 1)
  {
    hide DecodeCsr, LastSegment, AllValid, CertUrl, SignCsr, CommonNameFits;
  }

  /** The order can be finalized, these bytes are its proper CSR, and the certificate is issued
      to it with their key. */
  predicate IssuedFor(s: State, t: State, url: string, field: Json, c: string, der: Bytes) {
    && Finalizable(s, url) && ProperCsr(field, der, s.orders[url].identifiers)
    && IssuedTo(t, url, c, s.orders[url].identifiers, LoadCsr(der).value.key)
  }

  lemma FinalizedFor(s: State, base: string, path: string, payload: map<string, Json>, c: string)
    requires c in Finalize(s, base, path, payload).0.certificates && c !in s.certificates
    ensures exists der :: IssuedFor(s, Finalize(s, base, path, payload).0, FinalizedUrl(base, path),
                                    Get(payload, "csr"), c, der)
  {
    hide Finalize, BindsTo, FirstFits, ValidIdentifiers, IssuedTo, CertUrl, AllValid, LastSegment, Base64Url.Encode,
      FinalizedUrl;
    FinalizeAddsOne(s, base, path, payload, c);
    FinalizeExact(s, base, path, payload);
    var url := FinalizedUrl(base, path);
    var der :| ProperCsr(Get(payload, "csr"), der, s.orders[url].identifiers);
    FinalizeIssues(s, base, path, payload, url, der);
    assert IssuedFor(s, Finalize(s, base, path, payload).0, url, Get(payload, "csr"), c, der);
  }

  lemma OthersAddNone(s: State, base: string, jws: Jws, tokens: nat -> string, approval: Approval, url: string)
    ensures NewAccount(s, base, jws).0.certificates == s.certificates
    ensures NewOrder(s, base, jws.payload, tokens).0.certificates == s.certificates
    ensures RespondChallenge(approval, s, url).0.certificates == s.certificates
    ensures FetchOrder(s, url).0.certificates == s.certificates
  {
    hide NormalizeIdentifiers, FindChallenge, AllValid, HttpHit, AccountUrl, MintAuthzs;
  }

  /** Only a request to finalize adds a certificate. */
  lemma ReceivedCertificate(approval: Approval, w: World, e: Event, c: string)
    requires e.BodyRead? && e.task in w.tasks && w.tasks[e.task].Reading?
    requires c in Receive(approval, w.server, w.tasks[e.task].req, e.tokens).0.certificates
    requires c !in w.server.certificates
    ensures Finalizing(w, e)
  {
    hide RouteOf, ParseJws, NewAccount, NewOrder, RespondChallenge, FetchOrder, FetchAuthz, FetchCertificate, Finalize;
    var req := w.tasks[e.task].req;
    var mode := ModeOf(RouteOf(req.path));
    if mode.Some? && ParseJws(req.raw, mode.value).Some? {
      OthersAddNone(w.server, req.base, ParseJws(req.raw, mode.value).value, e.tokens, approval, req.base + req.path);
    }
  }

  lemma NewCertificateFinalizes(approval: Approval, w: World, e: Event, c: string)
    requires c in Step(approval, w, e).server.certificates && c !in w.server.certificates
    ensures Finalizing(w, e)
  {
    hide Receive, RouteOf, NonceText, Finalizing;
    if e.BodyRead? && e.task in w.tasks && w.tasks[e.task].Reading? { ReceivedCertificate(approval, w, e, c); }
  }

  /** A certificate that a step adds belongs to the order it finalizes with a proper CSR. */
  lemma NewCertificate(approval: Approval, w: World, e: Event, c: string)
    requires c in Step(approval, w, e).server.certificates && c !in w.server.certificates
    ensures Finalizing(w, e)
    ensures exists der :: IssuedFor(w.server, Step(approval, w, e).server, OrderAsked(w, e), CsrField(w, e), c, der)
  {
    hide Step, RouteOf, ParseJws, Finalize, IssuedFor, FinalizedUrl;
    NewCertificateFinalizes(approval, w, e, c);
    FinalizingStep(approval, w, e);
    var req := w.tasks[e.task].req;
    var payload := ParseJws(req.raw, ObjectMode).value.payload;
    FinalizedFor(w.server, req.base, req.path, payload, c);
    var t, url := Finalize(w.server, req.base, req.path, payload).0, FinalizedUrl(req.base, req.path);
    assert t == Step(approval, w, e).server && url == OrderAsked(w, e);
    var der :| IssuedFor(w.server, t, url, CsrField(w, e), c, der);
  }

  // ---------------------------------------------------------------- over whole runs

  /** The certificate is this order's, and that event finalized the order with these bytes,
      whose key the certificate has. */
  predicate Requested(approval: Approval, events: seq<Event>, c: string, key: string, i: int, der: Bytes) {
    && 0 <= i < |events| && key in Run(approval, events).server.orders
    && var s := Run(approval, events).server;
    && s.orders[key].certificateUrl == Some(c) && c in s.certificates
    && FinalizedAt(Run(approval, events[..i]), events[i], key, s.orders[key].identifiers, der)
    && s.certificates[c].key == LoadCsr(der).value.key
  }

  lemma RequestedLater(approval: Approval, events: seq<Event>, c: string, key: string, i: int, der: Bytes)
    requires events != [] && Requested(approval, events[..|events| - 1], c, key, i, der)
    ensures Requested(approval, events, c, key, i, der)
  {
    hide Run, FinalizedAt;
    var n := |events| - 1;
    assert events[..n][..i] == events[..i] && events[..n][i] == events[i];
    assert events[..|events|] == events;
    NeverGoesBack(approval, events, n, |events|, key);
  }

  lemma RequestedNow(approval: Approval, events: seq<Event>, c: string, der: Bytes)
    requires events != [] && Finalizing(Run(approval, events[..|events| - 1]), events[|events| - 1])
    requires var w, e := Run(approval, events[..|events| - 1]), events[|events| - 1];
             IssuedFor(w.server, Run(approval, events).server, OrderAsked(w, e), CsrField(w, e), c, der)
    ensures Requested(approval, events, c, OrderAsked(Run(approval, events[..|events| - 1]), events[|events| - 1]),
                      |events| - 1, der)
  {
    hide Run, Finalizing, OrderAsked, CsrField, AllValid, NamesFor, ValidIdentifiers, BindsTo, Base64Url.Encode;
  }

  lemma LastStep(approval: Approval, events: seq<Event>)
    requires events != []
    ensures Run(approval, events) == Step(approval, Run(approval, events[..|events| - 1]), events[|events| - 1])
  {
    hide Step;
  }

  /** Over every run: each certificate held was issued at an event whose body carried the
      base64url text of a CSR that is signed with its own key and is for the identifiers of
      the certificate's order, and the certificate has that key. */
  lemma {:induction false} CertificatesWereRequested(approval: Approval, events: seq<Event>, c: string)
    requires c in Run(approval, events).server.certificates
    ensures exists key, i, der :: Requested(approval, events, c, key, i, der)
  {
    hide Run, Step, Requested, IssuedFor, Finalizing;
    NoCertificatesAtStart(approval);
    if events != [] {
      var before, e := events[..|events| - 1], events[|events| - 1];
      LastStep(approval, events);
      if c in Run(approval, before).server.certificates {
        CertificatesWereRequested(approval, before, c);
        var key, i, der :| Requested(approval, before, c, key, i, der);
        RequestedLater(approval, events, c, key, i, der);
      } else {
        var w := Run(approval, before);
        NewCertificate(approval, w, e, c);
        var der :| IssuedFor(w.server, Step(approval, w, e).server, OrderAsked(w, e), CsrField(w, e), c, der);
        RequestedNow(approval, events, c, der);
      }
    }
  }

  lemma NoCertificatesAtStart(approval: Approval)
    ensures Run(approval, []).server.certificates == map[]
  {
  }
}
