# lacme, verified

A model of lacme, an ACME client and server library (RFC 8555, with the IP identifiers of
RFC 8738), and proofs about it. The files follow the library:

- `Identifiers`, `CsrBinding`, `Recovery`: typed DNS and IP identifiers, the binding of a CSR
  to an order, and the recovery of typed identifiers from a stored certificate.
- `Base64Url`, `Jose`: strict base64url and the flattened JWS envelope.
- `Routes`, `Acme`, `AcmeServer`: the responder's URLs, the meaning of each request on its
  dictionaries, and the class whose methods mutate them. `AcmeSafety` has what each step
  keeps, `ResponderAnswers` what each request is answered with, and `ResponderRuns`,
  `Approvals` and `CertifiedRequests` what holds over runs interleaved at every await.
- `MockServer`, `Serializability`: the lock-free mock, and the theorem that interleaved runs
  of the responder look like the mock serving one request at a time. `ExternalRuns` does this
  for runs with an external validator.
- `IssueFlow`: the client's issuance as it calls an arbitrary outside world; what holds
  whatever that world does (`IssueSafety`), and how the outcome depends on it (`IssueWorlds`).
  `EndToEnd` and `BodyLimit` put the responder in its place, `SlowOrders` a server that takes
  its time to issue; `LeftBehind` has runs that leave challenges behind.
- `Nonces`, `Polling`, `PollingRuns`: the nonce pool under concurrency, the deadline-bounded
  loops on the clock, and the bound they give for the requests of an issuance.
- `Dns01`: the records of the DNS challenge handler and its provider.
- `CertStore`, `PortableNames`, `StoreRefinement`: the stores, their directory names and their
  crash behaviour. `RateLimit`, `NamedLimits`, `CertifiedLimit`, `RegisteredDomain`: the
  sliding-window limiter, on records and on names, and the certificates it lets through.
  `Renewal`, `RenewalDue`, `ClientBundles`: renewal sweeps, by identity and by expiry, and the
  bundles a client leaves for them.
- `Text`, `Json`, `Wrappers`: the Python string operations used, JSON values, result types.

## Conventions

Code that mutates state is a class whose methods are proved equal to a function of the old
state; the theorems are about those functions and about runs of them. A request of the
responder is split where it awaits: reading the body, calling the validator, sending.

Facts about libraries are left arbitrary within stated laws, so the theorems hold for every
choice: which byte strings are JSON, PEM or CSR encodings and of what (`Json.Loads`,
`Renewal.LoadCerts`, `CsrBinding.LoadCsr`), which strings are canonical IPv6 text or A-labels
(`Identifiers.IsV6Text`, `Identifiers.IsCanonicalALabel`), the JWK thumbprint, the digest of
a certificate key, and the list of known second-level domains. That a writer and a reader are
inverse, and that a signed certificate is read back with the SANs signed, are hypotheses of
the theorems that need them (`EndToEnd.FaithfulWire`, `Renewal.Faithful`). Clocks, latencies,
random tokens, other parties' answers and crash points are parameters.

## Findings

Some natural statements do not hold of the code. Each is given with the exact condition under
which it does:

- The cleanup of an issuance passes over exceptions but not over a cancellation, which
  `RenewalManager.stop` can deliver while a deprovision is awaited: the remaining challenges
  then stay. All are deprovisioned exactly when no deprovision but the last due one was
  cancelled (`IssueSafety.IssueBalanced`, `LeftBehind.CancelledDeprovision`).
- A valid first identifier of more than 64 characters does not fit the common name of the CSR,
  so issuing fails after every challenge was provisioned and answered; with all else in order
  it succeeds exactly otherwise (`EndToEnd.IssueSucceeds`, `EndToEnd.LongNameFails`). Signing
  such a name on request raises too; there the mock uses up a certificate number and the
  responder does not (`Serializability.SerializableExactly`).
- The account URL both servers advertise is routed to no handler, so deactivating an account
  fails on every attempt; every other advertised URL reaches its handler
  (`Routes.MintedRoutes`, `EndToEnd.AccountUrlRefused`).
- A DNS record whose propagation wait raises stays: the handler tracks it, and nothing
  deprovisions it (`Dns01.RecordsAfterIssue`, `LeftBehind.TimedOutRecord`).
- The DNS handler forgets a record before its provider deletes it, so a deletion that raises
  leaves a record nobody tracks after a successful issue. The provider keeps nothing exactly if
  it deleted every record created (`Dns01.ProviderAfterIssue`, `LeftBehind.UndeletedRecord`).
- With a poll interval of zero or less a polling loop need not end
  (`Polling.EndsAlways`).
- Replacing a stored certificate is not crash-safe: stopping between the file writes leaves a
  bundle that mixes old and new files, such as the new certificate with the old key. It is
  all-or-nothing exactly when at most one file changes (`StoreRefinement.CrashedResave`).
- Deleting is not crash-safe either: stopped after another file went and before the metadata
  did, it makes the listing of the whole store raise. It is safe at every point exactly when
  the metadata goes first (`StoreRefinement.CrashedDelete`, `StoreRefinement.SafeOrder`).
- The limiter checks before issuance and records after it, so k overlapping issuances may
  exceed the limit by k - 1 but no more, and some do (`RateLimit.WindowBound`,
  `RateLimit.OverlapAttainsBound`).
- The limiter counts records, and an issuance that fails after its certificate was signed, in
  the store for instance, leaves none: certificates are bounded like records exactly but for
  those (`CertifiedLimit.CertificatesBound`, `CertifiedLimit.LostUnbounded`).
- The file of issuance records keeps a week; with a longer window it undercounts. It agrees
  with the unpruned log exactly for windows up to a week (`RateLimit.PruningInvisible`).
- A bundle whose leaf spells its first name in another letter case than the stored key is
  renewed under that spelling: the old bundle stays and stays due, and another bundle stored
  under the spelling is overwritten, whatever names it was for. Identities survive every sweep
  exactly when each renewable bundle's spelling is stored with the same values; none of them is
  left expiring within the threshold exactly when something was renewed under the name of each
  (`Renewal.IdentitiesSurvive`, `Renewal.OverwrittenBySweep`, `RenewalDue.ClearedExactly`,
  `RenewalDue.AnchoredKeepsOne`).
- A client asked for one text twice accepts a leaf that has it once, and saves a bundle that can
  never be recovered; what it saves is renewable exactly when the texts occur equally often
  (`ClientBundles.SavedRecovers`, `ClientBundles.DuplicateNeverRenewed`).
- A CSR also fits an order that names, besides the requested identifiers, the DNS reading of
  the first one's text (`CsrBinding.ClientCsrAccepted`).

## Model

| member | source | states |
|---|---|---|
| EndToEnd.IssueSucceeds | lacme/client.py:834-1043 | For every non-empty list of valid identifiers (duplicates, case variants and same-text DNS/IP pairs included) with a handler and a compatible HTTP or DNS challenge type each, issuing against a responder in any consistent state succeeds exactly when the first identifier's text has at most 64 characters. The requests are listed in advance: 3n + 4 on success, 3n + 2 when the name is too long, one more when the account is new. Every challenge provisioned is deprovisioned, one per identifier; the certificate carries exactly the requested typed values in order and the generated key |
| EndToEnd.LongNameFails | lacme/crypto.py:183-191 | A valid name of 65 characters cannot be issued for, although its challenge is provisioned, answered and cleaned up |
| EndToEnd.ParsedBack | lacme/client.py:241-279 | A signed request as the client writes it is parsed by the server, in the mode its route expects, to exactly the header and payload written |
| EndToEnd.Delivered | lacme/acme_server.py:162-270 | A request whose body suits its route changes the server and is answered as the handler of that route decides |
| EndToEnd.OrderPlaced | lacme/client.py:502-536 | The server places an order for exactly the identifiers the client asked for and the client learns its URL and authorizations |
| EndToEnd.ClaimOfMinted | lacme/client.py:900-912 | The client reads the typed identifier key back from the authorization the server minted for it: the wildcard label the server strips is the one the client puts back |
| EndToEnd.FoundAt | lacme/acme_server.py:486-496 | The search for an advertised challenge URL finds the authorization that advertised it |
| EndToEnd.AllSolved | lacme/client.py:900-930 | Solving the challenges of a placed order takes one request per identifier, succeeds, and leaves every authorization valid |
| EndToEnd.Obtained | lacme/client.py:950-967 | With every authorization valid the order is found ready, and if a CSR can be generated two more requests finalize it and download a chain whose leaf has the requested values and key; otherwise the order poll is the last request |
| BodyLimit.IssueSucceedsWithinLimit | lacme/acme_server.py:804-820 | With the limit on request bodies issuing succeeds exactly when the first identifier's text has at most 64 characters and every request of the list known in advance fits; the run is then the one without the limit |
| BodyLimit.LimitExact | lacme/acme_server.py:821-844 | A request that fits is served as without the limit; one that does not is refused |
| IssueWorlds.IssueSame | lacme/client.py:834-1043 | Two worlds that answer alike along the history of a run give the same history and outcome |
| IssueWorlds.SuccessAnswered | lacme/client.py:834-1043 | A successful run had every one of its requests answered |
| IssueWorlds.SuccessAnnounced | lacme/client.py:1023-1041 | A successful run tells each configured store, limiter and dispatcher exactly once, as its last calls and after all cleanup; a failed one tells at most a leading part of them |
| IssueWorlds.LimitedNames | lacme/client.py:873-876 | The limiter is asked about exactly the requested DNS names, never an address |
| IssueWorlds.RefusedBeforeSending | lacme/client.py:877-886 | A limiter that refuses or fails stops issuing before anything else is called |
| IssueFlow.OrderPollExact | lacme/client.py:647-685 | `poll_order` goes on while the answered order is pending, ready or processing, unless its patience is used up; it returns the order exactly when the last answer is a valid one |
| IssueFlow.ReadyPollExact | lacme/client.py:687-733 | `_poll_order_ready` goes on exactly while the order is pending, fails when it is invalid, and returns it in every other status |
| IssueFlow.AuthzPollExact | lacme/client.py:594-635 | `poll_authorization` goes on exactly while the authorization is pending and succeeds exactly when the last answer is a valid one |
| SlowOrders.IssueSlowly | lacme/client.py:932-967 | In every environment where issuing succeeds and a finalized order is valid at once: if the server instead says m times that the order is processing, issuing makes m more polls of that order, right after the finalization, and otherwise the same calls with the same result, when the patience of the poll allows m; when it does not, issuing fails |
| SlowOrders.IssueSucceedsSlowly | lacme/client.py:932-967 | Against the responder slowed down this way issuing succeeds exactly when the poll may ask m times, with the same certificate and m more requests |
| IssueSafety.IssueBalanced | lacme/client.py:892-975 | Whatever the server, handlers and collaborators do, on every path: the deprovisions called are, in order, a leading part of the provisions that returned, and all of them exactly when no deprovision was cancelled while others were to come; every provision is for an authorization the server sent for a requested identifier, with its configured handler, name and challenge type |
| IssueSafety.IssueFailsClosed | lacme/client.py:977-1043 | Nothing is saved, recorded or announced unless a leaf with exactly the requested typed identifiers and the generated key was accepted; that leaf is the one saved and returned, and by then every challenge is deprovisioned |
| IssueSafety.PlannedRoutes | lacme/client.py:839-871 | Exactly the requested identifiers have challenge routes; each is the override with its typed key, or else the default, and its challenge type is one the identifier can use |
| IssueSafety.SolveSafe | lacme/client.py:900-930 | At every exit of the provisioning loop the list kept for cleanup is exactly what was provisioned and not yet deprovisioned |
| IssueSafety.CleanUpSafe | lacme/client.py:968-975 | The cleanup deprovisions everything still open, in order, past ordinary exceptions; what it leaves open it leaves because a deprovision was cancelled, as its last call |
| IssueSafety.CancelledCleanUp | lacme/client.py:968-975 | With two challenges open and the first deprovision cancelled, the second is never deprovisioned |
| LeftBehind.CancelledDeprovision | lacme/client.py:968-975 | Against the responder, with n identifiers and every deprovision cancelled, issuing fails after n provisions and one deprovision call |
| IssueFlow.Client.IssueCertificate | lacme/client.py:834-1043 | The calls made, the account URL kept and the result are those of the specification of the whole flow, for every behaviour of the outside world, cancellations of the cleanup and a CSR that cannot be generated included |
| IssueFlow.Client.BuildRoutes | lacme/client.py:839-871 | The three set-up loops compute the challenge routes, or fail for an invalid map key, a missing handler or an incompatible challenge type |
| IssueFlow.Client.GetAuthorizations | lacme/client.py:543-548 | One request per URL in order, stopping at the first that fails |
| IssueFlow.Client.SolveChallenges | lacme/client.py:900-930 | Provision, then respond, authorization by authorization; what was provisioned is reported even when the loop fails |
| IssueFlow.Client.PollAuthorization | lacme/client.py:594-635 | Polls until the authorization is valid, fails, or its patience, a number of requests, is over; only a pending one is asked again and only a valid one is a success |
| IssueFlow.Client.PollOrderUntil | lacme/client.py:647-733 | The loop shared by the two order polls: it goes on while the answer means waiting to its caller, or its patience is over |
| IssueFlow.Client.PollOrderValid | lacme/client.py:647-685 | A pending, ready or processing order is asked for again within the patience, a valid one is returned, an invalid one is a failure |
| IssueFlow.Client.PollOrderReady | lacme/client.py:687-733 | Only a pending order is asked for again within the patience, an invalid one is a failure, any other is returned |
| IssueFlow.Client.ObtainChain | lacme/client.py:932-967 | Generates the CSR once the order is ready, and stops if that raises; finalizes only a ready order, waits only for one that is not yet valid, and downloads only from a valid one |
| IssueFlow.Client.DeprovisionAll | lacme/client.py:968-975 | Calls the deprovisions in order, past those that raise, up to one that is cancelled |
| IssueFlow.Client.KeepAndReport | lacme/client.py:1023-1041 | Saves, records and announces in that order, an exception ending the sequence |
| IssueFlow.EffectiveHas | lacme/client.py:848-860 | When the routes can be built every requested identifier has one |
| Serializability.Serializable | lacme/acme_server.py:162-679 | With requests interleaved at every await, every run decided without a validator in which no signature raises leaves the same accounts, orders, authorizations and certificates as the mock serving the linearized requests one at a time, and each request that reads a body gets the mock's answer (or the size refusal) |
| Serializability.SerializableExactly | lacme/testing.py:422-427 | The resources agree at every instant of a run exactly when no finalization in it is for a name too long to sign: then the mock has used up a certificate number and the responder has not |
| ExternalRuns.SerializableExternally | lacme/acme_server.py:502-539 | With an external validator, every interleaved run in which no signature raises leaves the resources of a sequential server that decides each challenge at once, in the turn of its verdict, and each request that reads a body gets its answer |
| ExternalRuns.ApprovedExternally | lacme/acme_server.py:502-539 | With positive verdicts only, that server is the auto-approving mock |
| Serializability.LinearizationGrows | lacme/acme_server.py:162-270 | The linearization only grows at its end, so it respects real-time order |
| Serializability.ReceiveIsMock | lacme/testing.py:136-194 | On equal resources, one request of admissible size does to the responder what it does to the mock, and is answered alike |
| MockServer.OwnAnswers | lacme/testing.py:136-194 | Where the mock differs: a new-nonce request other than HEAD has no content and no root certificate is served; both draw a nonce |
| Serializability.ServeFrame | lacme/acme_server.py:798-802 | What a request does and answers does not depend on how many nonces were given out |
| ResponderRuns.StepSafe | lacme/acme_server.py:476-612 | No resumption of any request, in any approval mode, breaks the consistency of the dictionaries or changes a resource other than in the permitted ways |
| ResponderRuns.RunInv | lacme/acme_server.py:162-679 | Consistency holds at every instant of every interleaved run |
| ResponderRuns.NeverGoesBack | lacme/acme_server.py:502-647 | Between any two instants of a run an order keeps its identifiers and URLs, its status never goes back, and its certificate, once set, never changes (status rules of section 7.1.6 of RFC 8555) |
| ResponderRuns.ReadyWasValidated | lacme/acme_server.py:558-647 | An order that is no longer pending became ready at an instant when every one of its authorizations existed, was for its identifier, and was valid |
| ResponderRuns.CertificatesWereValidated | lacme/acme_server.py:558-612 | Every certificate the responder holds belongs to an order, carries exactly its identifiers, and each of them had its own valid authorization at one instant of the run |
| CertifiedRequests.CertificatesWereRequested | lacme/acme_server.py:541-612 | Over every run each certificate held was issued at an event that finalized its order, whose body carried the base64url text of a CSR that is signed with its own key and names exactly the identifiers of the order, and the certificate has the key of that CSR |
| CertifiedRequests.FinalizationAnswered | lacme/acme_server.py:541-612 | A request to finalize an order that can be finalized is answered with badCSR, and issues nothing, exactly when it carries no such CSR (missing, unreadable, wrongly signed or for other names); otherwise the order gets a certificate with the key of the CSR, unless its first identifier is too long |
| ResponderRuns.NothingIssuedWithoutApproval | lacme/acme_server.py:527-533 | With neither automatic approval nor a validator no order is ever finalized and no certificate issued |
| Approvals.ValidWasApproved | lacme/acme_server.py:502-533 | In every approval mode and run, a valid authorization was approved by an event of the run: its own challenge answered under automatic approval, or a positive verdict on it |
| Approvals.VerdictSettles | lacme/acme_server.py:502-539 | The verdict on a waiting challenge makes its authorization and challenge valid or invalid, changes nothing else, and is what the request is answered with |
| Approvals.InvalidWasRejected | lacme/acme_server.py:502-539 | In every approval mode and run, an invalid authorization was rejected by a negative verdict of the run |
| Approvals.CertifiedWasApproved | lacme/acme_server.py:502-612 | Every certificate held is for identifiers each of which had an authorization approved by an earlier event |
| Approvals.AccountFoundAgain | lacme/acme_server.py:316-343 | A key that has an account keeps it: asking again creates nothing and answers with the same URL and contact |
| ResponderAnswers.AccountAnswered | lacme/acme_server.py:290-348 | What a request for an account does and answers, by case: malformed without a key, the account of a known key, a refusal when only existing accounts are wanted (any value of the field but the six Python takes as false), and otherwise a new account with the contact given or an empty list |
| ResponderAnswers.OrderAnswered | lacme/acme_server.py:350-378 | What a new order is answered with: malformed for no list or an empty one, by the first bad item otherwise, as unsupported exactly when that item has a type other than the two, and an order for exactly the identifiers of the items when none is bad |
| ResponderAnswers.NewAuthorization | lacme/acme_server.py:383-408 | Each authorization of a new order is pending, for its identifier, with the token drawn for it and URLs of its own number |
| ResponderAnswers.OrderRead | lacme/acme_server.py:627-658 | Reading an order answers with the order as it is kept from then on, ready if it was pending with every authorization valid |
| ResponderAnswers.NothingThere | lacme/acme_server.py:162-270 | A body that is too long or cannot be parsed is malformed, and a request for an authorization, challenge, order or certificate that does not exist is answered that there is none; neither changes anything |
| ResponderAnswers.ItemExactly | lacme/_identifiers.py:137-181 | Which identifier an item of the list names, and when its type is unsupported |
| Approvals.ExistingOnlyCreatesNothing | lacme/acme_server.py:316-333 | Asking for an existing account only never creates one, and succeeds exactly when the key has one |
| AcmeSafety.ServeSafe | lacme/acme_server.py:162-270 | Every request, routed or not, is a safe step: the invariant is kept and resources evolve only as permitted; only an external validator makes a request wait |
| AcmeSafety.HandleSafe | lacme/acme_server.py:290-679 | The same for every routed handler |
| AcmeSafety.FinalizeExact | lacme/acme_server.py:541-625 | What finalization answers, by case: no such order, not ready, badCSR exactly without a CSR that is signed with its own key and names exactly the identifiers of the order, an exception for a first identifier of more than 64 characters, and otherwise the valid order; unless it succeeds it changes nothing but pending to ready |
| AcmeSafety.FinalizeIssues | lacme/acme_server.py:602-612 | With such a CSR the order becomes valid and its certificate has the order's identifiers and the CSR's key |
| AcmeSafety.FinalizeSafe | lacme/acme_server.py:541-625 | Finalization keeps the invariant: valid exactly when a certificate URL is set, certificates numbered, owned and unshared |
| AcmeSafety.PlaceOrderSafe | lacme/acme_server.py:382-414 | Placing an order keeps the invariant: its authorizations are fresh, numbered, and each for exactly its identifier |
| AcmeSafety.PromoteSafe | lacme/acme_server.py:638-647 | The transition to ready keeps the invariant and happens only with every authorization valid |
| AcmeSafety.SettleChallengeSafe | lacme/acme_server.py:513-526 | A validator verdict arriving late keeps the invariant |
| AcmeSafety.ChallengeHitUnique | lacme/acme_server.py:486-496 | At most one authorization advertises a challenge URL, as one challenge type only |
| AcmeSafety.CertificateCount | lacme/acme_server.py:605-612 | The number of valid orders equals the number of certificates held |
| ResponderRuns.CertificatesCounted | lacme/acme_server.py:605-612 | At every instant of a run of the responder the number of valid orders is the certificate counter: no number is skipped |
| AcmeSafety.ServedCertificate | lacme/acme_server.py:660-679 | A certificate is served under a URL exactly when some order advertises that URL, and it carries exactly that order's identifiers |
| AcmeSafety.ServedChallenges | lacme/testing.py:332-381 | The challenges an authorization document offers are exactly those under whose URLs the search finds that authorization again |
| AcmeSafety.ServedAuthz | lacme/acme_server.py:428-474 | An authorization document names its identifier, and offers the HTTP challenge unless that is a wildcard and the DNS challenge unless it is an address |
| ResponderAnswers.ChallengeAnswered | lacme/acme_server.py:476-539 | A challenge request is answered with the challenge that the authorization document then offers under that URL: its type, token and new status |
| ResponderAnswers.SettledAnswered | lacme/acme_server.py:518-539 | So is one that waited for the validator, whatever the verdict |
| ResponderAnswers.ChallengeModes | lacme/acme_server.py:502-539 | A request for an offered challenge makes its authorization valid under automatic approval, moves only the challenge to processing without a validator, and waits for one otherwise; no other authorization changes |
| ResponderAnswers.OfferedChallenges | lacme/acme_server.py:428-474 | Every offered challenge has the token and status of its authorization, and the URL of its type |
| ResponderAnswers.BodiesWanted | lacme/acme_server.py:162-270 | Which paths want a signed body with an object, which one with an empty payload, and which none |
| ResponderAnswers.AnsweredWithoutBody | lacme/acme_server.py:162-270 | What the paths that want no body are answered with |
| AcmeSafety.AuthorizationCount | lacme/acme_server.py:387-414 | The authorization counter equals the total number of identifiers over all orders |
| AcmeServer.ACMEResponder.constructor | lacme/acme_server.py:132-160 | A new responder holds nothing and is consistent |
| AcmeServer.ACMEResponder.NextNonce | lacme/acme_server.py:798-802 | Only the counter changes, and the nonce is the one of the new counter value |
| AcmeServer.ACMEResponder.HandleNewAccount | lacme/acme_server.py:290-348 | New state and answer as specified: an account is found by thumbprint or created, once |
| AcmeServer.ACMEResponder.CreateAuthorizations | lacme/acme_server.py:387-406 | The loop stores exactly one fresh authorization per identifier, in order |
| AcmeServer.ACMEResponder.HandleNewOrder | lacme/acme_server.py:350-426 | New state and answer as specified; a rejected request changes nothing |
| AcmeServer.ACMEResponder.HandleAuthz | lacme/acme_server.py:428-474 | Reads only; offers the challenge types the identifier allows |
| AcmeServer.ACMEResponder.SearchChallenge | lacme/acme_server.py:486-496 | The loop finds the first authorization advertising the URL and its challenge type |
| AcmeServer.ACMEResponder.HandleChallenge | lacme/acme_server.py:476-539 | New state and answer as specified in each approval mode, up to the wait for a validator |
| AcmeServer.ACMEResponder.FinishChallenge | lacme/acme_server.py:513-539 | The verdict is applied to the authorization as it is when the verdict arrives |
| AcmeServer.ACMEResponder.PromoteOrder | lacme/acme_server.py:558-567 | The order becomes ready exactly when it is pending and every authorization is valid; nothing else changes |
| AcmeServer.ACMEResponder.HandleOrder | lacme/acme_server.py:627-658 | New state and answer as specified |
| AcmeServer.ACMEResponder.HandleFinalize | lacme/acme_server.py:541-625 | New state and answer as specified, on every rejection path, on success, and where signing raises before anything is stored |
| AcmeServer.ACMEResponder.Call | lacme/acme_server.py:162-270 | The dispatcher is the specification of one request, body limit included, and a safe step |
| AcmeServer.NonceInjective | lacme/acme_server.py:798-802 | Different counter values give different nonces (section 6.5 of RFC 8555) |
| MockServer.MockACMEServer.HandleRequest | lacme/testing.py:136-194 | The mock's dispatcher is the sequential meaning of the protocol, its 204 answer to a new-nonce request other than HEAD included, and keeps the invariant |
| MockServer.MockACMEServer.HandleNewAccount | lacme/testing.py:215-267 | Same specification as the responder handler |
| MockServer.MockACMEServer.HandleNewOrder | lacme/testing.py:269-330 | Same specification as the responder handler |
| MockServer.MockACMEServer.HandleChallenge | lacme/testing.py:353-381 | Search and update in one loop amount to the same specification, because the hit is unique |
| MockServer.MockACMEServer.HandleOrder | lacme/testing.py:443-469 | Same specification as the responder handler |
| MockServer.MockACMEServer.HandleFinalize | lacme/testing.py:383-441 | Same specification as the responder handler, except that a certificate number is used up where signing raises |
| Routes.MintedRoutes | lacme/acme_server.py:180-268 | The path of an advertised URL reaches the handler of the resource it was minted for exactly if it is not an account URL: an account URL reaches no handler |
| EndToEnd.AccountUrlRefused | lacme/client.py:433-443 | Whatever the client posts to an account URL, deactivation included, the responder changes nothing and the client raises |
| Routes.UrlsDistinct | lacme/acme_server.py:334-414 | An advertised URL of any of the seven kinds determines its kind, the base it was minted under and its number |
| Routes.UrlNumbers | lacme/acme_server.py:549-550 | The last path segment of a minted URL is its number |
| Identifiers.CanonicalAddressText | lacme/_identifiers.py:148-159 | An IP text is accepted exactly when it is the canonical text of an address, and then for that address |
| Identifiers.AddressTextInjective | lacme/_identifiers.py:113-126 | Different addresses have different texts |
| Identifiers.AddressTextShape | lacme/_identifiers.py:342-356 | Address text has no upper-case letter, and contains a colon exactly for IPv6 |
| Identifiers.DnsIgnoresCase | lacme/_identifiers.py:37-77 | Whether a DNS name is valid does not depend on letter case |
| Identifiers.DnsHasNoColon | lacme/_identifiers.py:37-77 | A valid DNS name contains no colon |
| Identifiers.NameOfLabels | lacme/_identifiers.py:37-77 | Labels joined by dots are a valid name exactly when each is a valid label and there are at most 253 characters, and with a wildcard in front exactly when one is allowed |
| Identifiers.HyphenatedLabel | lacme/_identifiers.py:37-77 | Two labels joined by a hyphen are a label exactly when the length and the A-label rule allow it; a hyphen at either end is never allowed |
| Identifiers.OneCharacterLabel | lacme/_identifiers.py:37-77 | A single character is a label exactly when it is a letter or a digit |
| Identifiers.WildcardRoundTrip | lacme/acme_server.py:394-395 | Stripping the wildcard label leaves a valid plain name and putting it back restores the identifier |
| Identifiers.ValueWireRoundTrip | lacme/_identifiers.py:113-134 | A public value and its wire form determine each other and share one key |
| Identifiers.WireValueRoundTrip | lacme/_identifiers.py:199-210 | A wire identifier is recovered from its typed value |
| Identifiers.ValuesWireRoundTrip | lacme/_identifiers.py:184-210 | The same for lists and their key sets |
| Identifiers.WireValuesRoundTrip | lacme/_identifiers.py:184-210 | The same in the other direction |
| Identifiers.NormalizeProtocolIdentifiers | lacme/_identifiers.py:162-181 | The loop returns every item's identifier in order, or the error of the first item that has one |
| Identifiers.NormalizedIdentifiersValid | lacme/_identifiers.py:162-181 | What normalization accepts is a non-empty list of valid identifiers |
| Identifiers.WireRoundTrip | lacme/client.py:515-521 | The server that parses what the client sends for an order gets the client identifiers back |
| CsrBinding.ValidateCsrIdentifiers | lacme/_identifiers.py:251-275 | Acceptance is exact: readable SANs, SAN keys plus the common names the order names equal to the order's keys, and every common name no SAN repeats a DNS name of the order; the returned values name exactly the order |
| CsrBinding.AcceptanceCondition | lacme/_identifiers.py:258-275 | The order-dependent loop and its two final tests amount to an order-free condition |
| CsrBinding.DecodeAndValidateCsr | lacme/_identifiers.py:278-299 | Succeeds exactly when the field is the base64url text of a CSR that is signed with its own key and, name by name, is for all of the identifiers and for no others; then it yields those bytes and the values of the identifiers |
| CsrBinding.BindsExact | lacme/_identifiers.py:225-275 | The acceptance condition on key sets says: every SAN entry names an identifier of the order, every common name does or repeats a SAN entry, and each identifier is named |
| CsrBinding.DecodeExact | lacme/_identifiers.py:278-299 | The bytes and values decoded are exactly those of a proper CSR in the field |
| CsrBinding.GenerateCsr | lacme/crypto.py:164-192 | It returns exactly for a non-empty list of valid values whose first text has at most 64 characters; the request has one typed SAN per value in order, read back as that list |
| CsrBinding.ClientCsrAccepted | lacme/_identifiers.py:251-275 | A client request fits an order exactly when the order's keys are the requested ones, or those plus the first text read as a DNS name |
| CsrBinding.OwnOrderAcceptsClientCsr | lacme/_identifiers.py:278-299 | For the order made from the same list (duplicates, case variants, same-text pairs, IP first) the server accepts it and gets the list back |
| Recovery.Reorder | lacme/_identifiers.py:342-365 | Greedy matching returns an arrangement of the values under the metadata strings exactly when there is one |
| Recovery.GreedyExact | lacme/_identifiers.py:342-365 | Greedy matching is sound and complete |
| Recovery.MatchingValuesInterchange | lacme/_identifiers.py:346-354 | Two valid values that match one string match exactly the same strings |
| Recovery.ExchangeFirst | lacme/_identifiers.py:342-361 | If some arrangement exists, one exists that starts with any given match of the first string |
| Base64Url.StrictInverse | lacme/_jose.py:40-58 | Strict decoding is the two-sided inverse of encoding (section 5 of RFC 4648) |
| Base64Url.StrictAccepts | lacme/_jose.py:40-58 | It accepts exactly the alphabet, the possible lengths, and zero trailing bits (section 3.5 of RFC 4648) |
| Base64Url.SymbolTable | lacme/crypto.py:42-44 | The alphabet is that of table 2 of RFC 4648, with - for 62 and _ for 63 |
| Base64Url.EncodedExample | lacme/crypto.py:42-44 | Two bytes whose digits include the last two of the alphabet |
| Base64Url.UnpackOfPack | lacme/crypto.py:42-54 | Decoding an encoding gives the bytes back for every length |
| Base64Url.PackOfUnpack | lacme/_jose.py:40-58 | Re-encoding what was decoded gives the text back exactly when the unused bits are zero |
| Jose.JwsRoundTrip | lacme/_jose.py:61-117 | Parsing a serialized envelope recovers its header and payload; it is accepted exactly when the header is an object and the payload fits the mode |
| Jose.AcceptedIsEncoded | lacme/_jose.py:61-117 | Whatever is accepted has the three fields in the one spelling the encoder writes |
| Jose.EnvelopeRefused | lacme/_jose.py:61-117 | An envelope that lacks one of its three fields, or has a field of another serialization, is refused |
| Jose.OtherFieldsIgnored | lacme/_jose.py:61-117 | No other field of an envelope matters |
| StoreRefinement.RunsAgree | lacme/store.py:222-306 | Over every sequence of save, load, list and delete on valid keys that do not collide, first saves cut short included, the file store holds and answers what the in-memory store does |
| StoreRefinement.StepAgrees | lacme/store.py:222-324 | One operation on a key whose directory is its own answers and acts like the in-memory store |
| StoreRefinement.Isolation | lacme/store.py:129-140 | No operation on a key, even one that shares a directory with another or stops half-way, changes another key's bundle; on a directory of another key it only raises |
| StoreRefinement.BlockedByOwner | lacme/store.py:235-240 | A key is refused exactly when a stored key shares its directory |
| StoreRefinement.CrashedFirstSave | lacme/store.py:242-258 | A first save stopped after any write leaves the key absent until the metadata is written, then the whole bundle; other keys are unaffected |
| StoreRefinement.CrashedResave | lacme/store.py:242-258 | Replacing a stored bundle is all-or-nothing at every crash point exactly when at most one of its four files changes |
| StoreRefinement.StoppedSave | lacme/store.py:222-258 | What the key loads after each number of writes |
| StoreRefinement.CrashedDelete | lacme/store.py:294-306 | A delete stopped after any step, whatever the order in which the files go: listing the store keeps working exactly if nothing or the metadata is gone by then; otherwise the listing and the key raise; other keys are unaffected |
| StoreRefinement.SafeOrder | lacme/store.py:294-306 | Deleting is safe at every crash point exactly when the metadata is the first file to go |
| StoreRefinement.RepairedBySave | lacme/store.py:222-258 | After any crash of a delete, saving a bundle under the key makes the store whole again |
| CertStore.FileStore.SaveCert | lacme/store.py:222-265 | Result and disk as specified, and the disk passes through exactly the five states the crash results speak of |
| CertStore.FileStore.LoadCert | lacme/store.py:267-271 | The bundle, nothing, or the error, exactly |
| CertStore.FileStore.DeleteCert | lacme/store.py:294-306 | Removes the directory only when it belongs to the key, and passes through exactly the states the crash results speak of, file by file |
| CertStore.FileStore.ListCerts | lacme/store.py:273-292 | Every whole bundle once, in key order; it raises exactly when some directory is misplaced or incomplete |
| CertStore.MemoryStore.SaveCert | lacme/store.py:356-358 | The dictionary gains or replaces exactly this key and keeps insertion order |
| CertStore.MemoryStore.ListCerts | lacme/store.py:363-364 | The stored bundles, each once, in insertion order |
| CertStore.MemoryStore.DeleteCert | lacme/store.py:366-370 | Removes exactly this key and reports whether it was there |
| CertStore.ComponentsCollide | lacme/store.py:129-140 | Two keys share a directory exactly when equal, or when both are hashed and their digests collide |
| PortableNames.ComponentSafe | lacme/store.py:103-140 | Every directory name of a valid key is safe on every file system: no forbidden or control character, no trailing dot or space, no device name, at most 255 characters |
| PortableNames.DnsDirectory | lacme/store.py:116-140 | A valid DNS name is its own directory exactly without a wildcard, up to 200 characters, unless it looks like a hashed name or begins with a device name |
| PortableNames.V6Directory | lacme/store.py:116-140 | The text of an IPv6 address is hashed |
| CertStore.BeforeExact | lacme/store.py:292-292 | The order of the listing is the lexicographic order of the keys by character |
| RateLimit.SequentialWindowBound | lacme/ratelimit.py:334-389 | For issuance one at a time with blocking on and a non-decreasing clock, no closed window holds more than the limit of records of any registered domain |
| RateLimit.WindowBound | lacme/client.py:879-885 | With at most k issuances between their check and their record, no window holds more than limit + k - 1 |
| RateLimit.OverlapAttainsBound | lacme/client.py:879-885 | The bound is sharp for every limit, window and number in flight: some run attains it |
| CertifiedLimit.CertificatesBound | lacme/client.py:1023-1031 | With at most k issuances in flight, no window has more certificates of a registered domain signed in it than limit + k - 1 plus those of issuances that failed between the signature and the record |
| CertifiedLimit.LostUnbounded | lacme/client.py:1023-1031 | Without such a restriction any number of certificates is signed in one window, one issuance at a time, with no record at all |
| RateLimit.FileLimitsAlike | lacme/ratelimit.py:228-270 | With a window of at most a week, limiting on the pruned file, whose saves read the clock anew, admits the same issuances and leaves the same records as limiting on the unpruned log, over every run |
| RateLimit.PruningInvisible | lacme/ratelimit.py:267-270 | The pruned file answers every query of every run like the unpruned log exactly when the window is at most a week |
| RateLimit.FileIsPrunedLog | lacme/ratelimit.py:267-270 | After any writes the file is the whole log pruned at the last of them |
| RateLimit.LongWindowForgets | lacme/ratelimit.py:267-270 | With a longer window a counted record is gone after a write |
| RateLimit.RateLimitTracker.Check | lacme/ratelimit.py:334-375 | Counts for the registered domain of every name, and who is blocked or warned; after any calls of `record`, with blocking on, the names are allowed exactly when for each fewer than `limit` calls in the window had a name with the same registered domain up to letter case, in either store |
| RateLimit.RateLimitTracker.Record | lacme/ratelimit.py:377-389 | One record for the registered domain of each name, once and at one time, in either store; each save of a file store prunes by its own clock reading; it counts as one more call |
| RateLimit.MemoryCountsNames | lacme/ratelimit.py:342-389 | The records found for the registered domain of a name are as many as the calls made for a name with the same registered domain |
| NamedLimits.NamedWindowBound | lacme/ratelimit.py:334-389 | For issuances given by their names and every rule which names count together: with k in flight no closed window has more than limit + k - 1 issuances with a name that counts with a given one |
| NamedLimits.RunSimulated | lacme/ratelimit.py:334-389 | The limiter on records simulates the one that counts issuances by name, step for step |
| NamedLimits.LimitShared | lacme/ratelimit.py:342-358 | After as many issuances for one name as the limit allows, another name is refused exactly when it has the same registered domain up to letter case |
| NamedLimits.SiblingsCountTogether | lacme/ratelimit.py:110-135 | Under the default rule two names side by side share a limit unless their parent is a bare suffix |
| RateLimit.MemoryRateLimitStore.GetIssuances | lacme/ratelimit.py:195-205 | The records of the domain not older than the bound, in order |
| RateLimit.FileRateLimitStore.RecordIssuance | lacme/ratelimit.py:228-270 | The file becomes the old records and the new one, pruned to a week |
| RateLimit.FileRateLimitStore.GetIssuances | lacme/ratelimit.py:234-243 | The records of the domain not older than the bound, in order |
| RegisteredDomain.DefaultIsStable | lacme/ratelimit.py:110-135 | The registered domain does not depend on case or on a wildcard label, and is its own registered domain |
| RegisteredDomain.SubdomainCounts | lacme/ratelimit.py:110-135 | A subdomain counts towards the same registered domain exactly when its parent is not itself a bare suffix |
| RegisteredDomain.TrailingDot | lacme/ratelimit.py:110-135 | A dot at the end of a name does not matter |
| Renewal.IdentitiesSurvive | lacme/renewal.py:98-166 | With issuers whose bundles recover as requested, the names and the typed values each stands for survive every run of sweeps exactly when the store is anchored: the name of the first value of every bundle that can be renewed is stored with the same values |
| Renewal.RenewalFixedPoint | lacme/renewal.py:98-166 | From an anchored store, with issuers whose bundles recover as requested, after any number of sweeps, whatever fails in them and whichever bundles cannot be recovered, the store has the same names and each yields the same typed values in the same order, or still none |
| Renewal.SweepKeepsIdentities | lacme/renewal.py:98-166 | The same for one sweep |
| Renewal.DriftingRound | lacme/renewal.py:129-140 | One sweep over a bundle that is not anchored changes an identity |
| Renewal.SweepExact | lacme/renewal.py:98-166 | For every store and issuer: under each name a sweep leaves the last replacement that has this name, and without one whatever was there |
| Renewal.SweepClears | lacme/renewal.py:98-171 | After a sweep by an issuer that grants every request beyond the renewal window, exactly those bundles are due that were due and whose name no renewed bundle took: those that cannot be renewed, and those renewed under another name |
| Renewal.NameKept | lacme/renewal.py:129-140 | Renewing one bundle stores the result under the text of the first recovered value, whatever was stored there; if that is not the old name the two differ in case alone, and the old bundle stays, still due |
| Renewal.OverwrittenBySweep | lacme/renewal.py:129-140 | At a store with a due bundle 'A' whose leaf says 'a' and a bundle 'a' for two names that is not due, one sweep overwrites the second: its second name is in no bundle any more |
| Renewal.DirectRecovers | lacme/ca.py:202-236 | Direct signing is such an issuer: its bundles recover as the list asked for, named after its first value |
| ClientBundles.ResponderRecovers | lacme/client.py:834-1021 | Renewing through a client of the responder is such an issuer too |
| ClientBundles.SavedRecovers | lacme/client.py:986-1021 | For any server: the bundle the client saves for an accepted leaf can be recovered, and so renewed, exactly when the leaf has every requested text as often as it was requested, letter case aside; acceptance compares sets only |
| ClientBundles.DuplicateNeverRenewed | lacme/client.py:986-1021 | Asked for one name twice and given a leaf that has it once, the client accepts, and no sweep ever renews the bundle |
| Renewal.RecoveredKeys | lacme/_identifiers.py:316-365 | Recovery keeps the set of typed identifiers of the leaf, whichever authority issued it |
| Renewal.RecoverIdentifiers | lacme/_identifiers.py:316-365 | The leaf's values in metadata order, failing exactly when the leaf is unusable or nothing fits |
| Renewal.LeafValuesExact | lacme/_identifiers.py:316-342 | The values come from a file with exactly one certificate and readable SANs, whose metadata names its first domain as the primary one |
| Renewal.IssuedRecovers | lacme/ca.py:202-236 | What the authority issues for a list is recovered as that very list |
| Renewal.IssuedFiles | lacme/store.py:222-265 | Issued and then saved, the leaf, the chain and the private key of the signature are each in the file named after it, and the texts of the values in the metadata |
| Renewal.Issue | lacme/ca.py:371-399 | The SAN loop signs one typed entry per value, in order; a first text of more than 64 characters raises |
| Renewal.RenewalManager.CheckAndRenew | lacme/renewal.py:98-166 | The store and the list of renewed bundles after the loop over the snapshot are as specified, for any issuer; which bundles those are, by their expiry, is in `RenewalDue` |
| RenewalDue.RenewedByExpiry | lacme/renewal.py:168-171 | Where the issuer grants, a sweep renews a recoverable bundle exactly when it expires at most `days` days of 24 hours after now |
| RenewalDue.TenDaysLeft | lacme/renewal.py:168-171 | Ten days before expiry a bundle is renewed with a threshold of thirty days and not with one of nine |
| RenewalDue.SweepByExpiry | lacme/renewal.py:98-166 | After a sweep of the whole store by issuers of lasting bundles: under a name some renewable bundle expiring by the threshold is renewed as, there is one that expires later; every other name holds what it held |
| RenewalDue.ClearedExactly | lacme/renewal.py:98-171 | No renewable bundle expires by the threshold after such a sweep exactly when each that did had a name something is renewed as |
| RenewalDue.OwnNamesCleared | lacme/renewal.py:98-171 | In particular, where each bundle is renewed under its own name, it is replaced exactly when it expires by the threshold, and none that does is left |
| RenewalDue.AnchoredKeepsOne | lacme/renewal.py:129-143 | An anchored store in which a renewable bundle that is due stays after the sweep |
| Nonces.NonceConservation | lacme/client.py:221-237 | Over every interleaved run the harvested nonces are exactly those in the pool and those sent |
| Nonces.NonceSingleUse | lacme/client.py:221-237 | If the server repeats no nonce, none is put into two requests, and none still in the pool was sent |
| Nonces.SentWasHarvested | lacme/client.py:241-279 | Every nonce sent had been harvested |
| Nonces.AtMostTwoPosts | lacme/client.py:310-325 | A signed request posts at most twice, the second time only after badNonce |
| Nonces.NoncePool.SignedRequest | lacme/client.py:299-329 | The retry loop: it posts exactly if it gets a nonce, once if that is accepted, and again if the nonce is refused with badNonce and there is another, brought by the refusal or fetched; success exactly when the last post was accepted, nonces conserved |
| Nonces.NoncePool.GetNonce | lacme/client.py:221-232 | Takes a pooled nonce without a request if there is one; else gets one exactly if the directory is known or fetched and a reply brings one, that of the new-nonce reply when it has one |
| Nonces.NoncePool.Pop | lacme/client.py:222-223 | The nonce harvested last leaves the pool |
| Nonces.NoncePool.HarvestNonce | lacme/client.py:234-237 | A non-empty header is appended to the pool; an absent or empty one is ignored |
| Nonces.HarvestedInOrder | lacme/client.py:199-237 | Over every run the nonces harvested are the non-empty headers of the replies delivered, in their order |
| Nonces.BeginExact | lacme/client.py:221-226 | A request begins by posting with the last nonce of the pool, or waits for a fresh one, or for the directory if that is not known |
| Nonces.DirectoryKept | lacme/client.py:208-219 | Over every run, tasks that wait for the directory after it became known did so already then |
| Nonces.FreshNonceSent | lacme/client.py:221-232 | A task with an empty pool posts with the nonce of its new-nonce reply |
| Nonces.RefusalRetried | lacme/client.py:310-325 | A first post refused with badNonce is repeated with the nonce the refusal brings |
| Nonces.NoncePool.RawSignedRequest | lacme/client.py:239-279 | The nonce of the response is harvested whether it accepts the post or not |
| Nonces.ResponderNoncesDistinct | lacme/acme_server.py:798-802 | The responder's nonces for increasing counters never repeat |
| Polling.Poll | lacme/client.py:601-635 | The loop ends with the first request that fails, decides or is over its deadline, at the time the clock says, with the result that request means; it is called where there is such a request |
| Polling.EndsInTime | lacme/client.py:616-635 | If every turn takes some least time, in its sleep or in its request, there is such a request among the first timeout / least + 1, for any answers and Retry-After values |
| Polling.LatestStart | lacme/client.py:616-635 | The last request starts at most a tenth of a second past the timeout, apart from the overrun of the sleep and the clock readings before it |
| Polling.EndsAlways | lacme/client.py:625-635 | The loop ends in every world and for every timeout exactly when the poll interval is positive |
| Polling.DelayBounds | lacme/client.py:627-635 | A sleep never ends after both the deadline and a tenth of a second from now, and is never shorter than the smaller of the interval and a tenth of a second |
| Polling.RetryAfterHonoured | lacme/client.py:625-635 | With a Retry-After header the next request starts that much later and at least a second, whatever the interval, but no later than the deadline while a tenth of a second is left |
| Polling.IntervalHonoured | lacme/client.py:625-635 | Without one it starts an interval later, within the same limits |
| Polling.ProgressNeedsInterval | lacme/client.py:625-635 | Every sleep takes time exactly when the poll interval is positive |
| Polling.WaitForPropagation | lacme/challenges/dns01.py:136-164 | The DNS propagation wait is the same loop, with the same end, time and result |
| PollingRuns.PollAuthzIsPoll | lacme/client.py:594-635 | The timed loop that ends with its p-th request is the issuance flow's loop with patience p - 1: the same requests and outcome |
| PollingRuns.PollOrderIsPoll | lacme/client.py:647-733 | The same for the two loops over an order |
| PollingRuns.IssueInTime | lacme/client.py:834-967 | Whatever the server answers, with at most n authorizations in an order, issuing makes at most 2n + 4 requests and n + 2 polling loops, each of them the timed loop on that server's answers and within its bound |
| Dns01.RecordsAfterIssue | lacme/challenges/dns01.py:94-134 | What a DNS handler still tracks after issuing: the records it created apart from those deprovisioned. Without an early cancellation it tracks nothing exactly when every provision that raised after creating its record was for a slot another provision succeeded for; after a successful issue it tracks nothing |
| Dns01.TrackedExact | lacme/challenges/dns01.py:94-134 | The same accounting along every history in which nothing is provisioned after a deprovision |
| Dns01.ProviderAfterIssue | lacme/challenges/dns01.py:118-134 | What the provider keeps after issuing: every record created that it did not delete; it keeps nothing exactly if it deleted every record created. After a successful issue the handler tracks nothing, whatever the provider did, and with no failing deletion the provider keeps nothing |
| LeftBehind.UndeletedRecord | lacme/challenges/dns01.py:118-134 | Against the responder, with deletions that raise, issuing succeeds, the handler tracks nothing, and records are left at the provider |
| Dns01.DNS01Handler.Provision | lacme/challenges/dns01.py:94-116 | The record is tracked before the wait for it, so also when the wait raises |
| Dns01.RecordNames | lacme/challenges/dns01.py:30-38 | A valid name and its wildcard share a record name, other pairs of names do not, and no record name has an asterisk |
| Dns01.DNS01Handler.Deprovision | lacme/challenges/dns01.py:118-134 | The slot is forgotten whether or not the provider deletes; only a tracked record is deleted |
| LeftBehind.TimedOutRecord | lacme/challenges/dns01.py:94-116 | Against the responder, with a propagation wait that times out, issuing fails and the record created is still tracked, never deprovisioned |

## Left out

- EndToEnd.IssueSucceeds: the handlers, store, limiter and event dispatcher are taken not to fail; the responder's body limit is in `BodyLimit.IssueSucceedsWithinLimit`. A signed request is one call here, its retry and nonces being in `Nonces`.
- IssueFlow.Client.PollAuthorization: the deadline is a number of further requests; `PollingRuns.PollAuthzIsPoll` ties it to the clock.
- SlowOrders.IssueSlowly: only the finalization is slow; a server slow to validate is covered call by call by `IssueFlow.AuthzPollExact` and `IssueFlow.ReadyPollExact`.
- IssueFlow.Client.PollOrderUntil: the deadline is a number of further requests; `PollingRuns.PollOrderIsPoll` ties it to the clock.
- IssueFlow.Client.IssueCertificate: a cancellation outside the cleanup is a failed call like any other, since either ends the part under `try`.
- AcmeServer.ACMEResponder.HandleFinalize: apart from a name that does not fit, the authority's signing does not raise: it is initialised, and its own store and events do not fail.
- MockServer.MockACMEServer.HandleFinalize: the same holds of the mock's signing.
- Serializability.Serializable: runs with an external validator are in `ExternalRuns.SerializableExternally`, since the mock has none; requests over the body limit are answered with the refusal and have no counterpart in the mock, and all requests use one base URL. Requests that read no body are not compared: the mock answers a new-nonce request other than HEAD with 204 and serves no root certificate.
- CertifiedLimit.CertificatesBound: the signing is one step of an issuance in flight, whoever signs.
- RateLimit.WindowBound: blocking is on; with blocking off the tracker refuses nothing.
- Renewal.RenewalManager.CheckAndRenew: the store is the in-memory one; the file store agrees with it by `StoreRefinement.RunsAgree` while no keys collide. The callback and the events of a sweep do not stop it.
- StoreRefinement.RunsAgree: a crash while replacing or deleting a stored bundle is described by `StoreRefinement.CrashedResave` and `StoreRefinement.CrashedDelete` instead.
- Dns01.ProviderAfterIssue: a creation that raises is taken to have created nothing, and a deletion that raises to have deleted nothing.
- HTTP, TLS, redirects, framework adapters, the command line, metrics, logging and error strings.
- Real cryptography, X.509 and PEM: a certificate is its SANs and key, a CSR its SANs, common names, key and signature flag; expiry is only in stored bundles; of the limits of the X.509 library only the 64 characters of a common name are modelled.
- Non-ASCII text and scoped IPv6 addresses.
- Signature and nonce verification on the server, which the responder does not do.
- Preemptive threads: other requests run only where a handler awaits, and a body is read in one step. A record held across an await is found again by its dictionary key.
- `key_authorization` on the server's authorizations, account contacts beyond their storage, key change and revocation, external account binding, pre-authorization, account deactivation.
- Account-key and CA files in the stores, file permissions, symbolic links, temporary files.
- The base URL computed from an ASGI scope: it is part of the request.
- Events other than the issued event, the renewal loop's sleeping and callbacks, DNS providers, the synchronous client.
- CSR identifiers for direct issuance without an order (`csr_ca_identifier_values`).
- Responses are modelled after parsing; a response that cannot be parsed counts as a raised exception.
