/** What every request keeps: the consistency of the server's dictionaries, and the only
    ways an order, an authorization or a certificate may change. */
module AcmeSafety {
  import opened Wrappers
  import opened Text
  import opened Json
  import Base64Url
  import opened Identifiers
  import opened CsrBinding
  import opened Jose
  import opened Routes
  import opened Acme

  // ---------------------------------------------------------------- consistency

  /** The authorization's URLs carry its number. */
  predicate Numbered(authz: Authz, n: nat) {
    && LastSegment(authz.url) == Decimal(n)
    && LastSegment(authz.challengeUrl) == Decimal(n)
    && LastSegment(authz.dnsChallengeUrl) == Decimal(n) + "-dns"
  }

  predicate AuthzsConsistent(authzs: map<string, Authz>, keys: seq<string>, count: nat) {
    && |keys| == count
    && (forall key :: key in authzs ==> key in keys)
    && (forall i :: 0 <= i < |keys| ==>
          keys[i] in authzs && authzs[keys[i]].url == keys[i] && Numbered(authzs[keys[i]], i + 1))
  }

  predicate KeysNumbered(keys: seq<string>) {
    forall i :: 0 <= i < |keys| ==> LastSegment(keys[i]) == Decimal(i + 1)
  }

  /** The authorization is for exactly this identifier. */
  predicate Covers(authz: Authz, id: Identifier) {
    && authz.kind == id.kind
    && authz.wildcard == (id.kind == DnsKind && "*." <= id.value)
    && authz.identifierValue == if authz.wildcard then id.value[2..] else id.value
  }

  predicate Covered(authzs: map<string, Authz>, urls: seq<string>, ids: seq<Identifier>) {
    && |urls| == |ids|
    && forall i :: 0 <= i < |urls| ==> urls[i] in authzs && Covers(authzs[urls[i]], ids[i])
  }

  function NamesFor(ids: seq<Identifier>): seq<GeneralName>
    requires ValidIdentifiers(ids)
  {
    seq(|ids|, i requires 0 <= i < |ids| => NameOfValue(ValueOfIdentifier(ids[i])))
  }

  predicate Certified(certificates: map<string, Certificate>, order: Order)
    requires ValidIdentifiers(order.identifiers)
  {
    match order.certificateUrl
    case None => order.status == OrderPending || order.status == OrderReady
    case Some(url) =>
      order.status == OrderValid && url in certificates && certificates[url].sans == NamesFor(order.identifiers)
  }

  predicate OrderFits(authzs: map<string, Authz>, certificates: map<string, Certificate>, order: Order) {
    && order.identifiers != [] && ValidIdentifiers(order.identifiers)
    && Covered(authzs, order.authzUrls, order.identifiers)
    && Certified(certificates, order)
  }

  predicate OrdersFit(authzs: map<string, Authz>, certificates: map<string, Certificate>, orders: map<string, Order>) {
    forall key :: key in orders ==> OrderFits(authzs, certificates, orders[key])
  }

  predicate OrdersKeyed(orders: map<string, Order>, keys: seq<string>, count: nat) {
    && |keys| == count
    && KeysNumbered(keys)
    && (forall key :: key in orders ==> key in keys)
    && (forall i :: 0 <= i < |keys| ==> keys[i] in orders && orders[keys[i]].url == keys[i])
  }

  /** Every certificate carries a number already used. */
  predicate CertificatesNumbered(certificates: map<string, Certificate>, count: nat) {
    && |certificates| <= count
    && forall c :: c in certificates ==> exists n :: 1 <= n <= count && LastSegment(c) == Decimal(n)
  }

  /** Every certificate belongs to an order ... */
  predicate CertificatesOwned(certificates: map<string, Certificate>, orders: map<string, Order>) {
    forall c :: c in certificates ==> exists key :: key in orders && orders[key].certificateUrl == Some(c)
  }

  predicate SameCertificate(a: Order, b: Order) {
    a.certificateUrl.Some? && a.certificateUrl == b.certificateUrl
  }

  /** ... and to one order only. */
  predicate CertificatesUnshared(orders: map<string, Order>) {
    forall k, l :: k in orders && l in orders && SameCertificate(orders[k], orders[l]) ==> k == l
  }

  /** The authorizations of the orders, in order of creation. */
  function Advertised(orders: map<string, Order>, keys: seq<string>): seq<string> {
    if keys == [] then []
    else
      var last := keys[|keys| - 1];
      Advertised(orders, keys[..|keys| - 1]) + if last in orders then orders[last].authzUrls else []
  }

  predicate Inv(s: State) {
    && AuthzsConsistent(s.authzs, s.authzKeys, s.authzCounter)
    && OrdersKeyed(s.orders, s.orderKeys, s.orderCounter)
    && OrdersFit(s.authzs, s.certificates, s.orders)
    && CertificatesNumbered(s.certificates, s.certCounter)
    && CertificatesOwned(s.certificates, s.orders)
    && CertificatesUnshared(s.orders)
    && Advertised(s.orders, s.orderKeys) == s.authzKeys
  }

  lemma EmptyInv()
    ensures Inv(EMPTY)
  {
  }

  // ---------------------------------------------------------------- evolution

  function Rank(status: OrderStatus): nat {
    match status
    case OrderPending => 0
    case OrderReady => 1
    case _ => 2
  }

  /** How one order may differ after a step of the server that started in `s`. */
  predicate OrderEvolves(s: State, before: Order, after: Order) {
    && after == before.(status := after.status, certificateUrl := after.certificateUrl)
    && Rank(before.status) <= Rank(after.status)
    && (before.certificateUrl.Some? ==> after.certificateUrl == before.certificateUrl)
    && (before.status == OrderPending && after.status != OrderPending ==> AllValid(s, before.authzUrls))
  }

  /** An authorization changes in nothing but its status and its challenges' status. */
  predicate AuthzEvolves(before: Authz, after: Authz) {
    after == before.(status := after.status, challengeStatus := after.challengeStatus)
  }

  predicate Evolves(s: State, t: State) {
    && (forall key :: key in s.orders ==> key in t.orders && OrderEvolves(s, s.orders[key], t.orders[key]))
    && (forall key :: key in t.orders && key !in s.orders ==> t.orders[key].status == OrderPending)
    && (forall key :: key in s.authzs ==> key in t.authzs && AuthzEvolves(s.authzs[key], t.authzs[key]))
    && (forall c :: c in s.certificates ==> c in t.certificates && t.certificates[c] == s.certificates[c])
    && s.orderKeys <= t.orderKeys && s.authzKeys <= t.authzKeys
  }

  /** What a step of the server may do. */
  predicate Safe(s: State, t: State) {
    Inv(t) && Evolves(s, t)
  }

  lemma EvolvesReflexive(s: State)
    ensures Evolves(s, s)
  {
  }

  // ---------------------------------------------------------------- lookups

  /** The search for a challenge URL has at most one hit, of one type. */
  lemma ChallengeHitUnique(s: State, i: nat, j: nat, url: string)
    requires AuthzsConsistent(s.authzs, s.authzKeys, s.authzCounter) && i < |s.authzKeys| && j < |s.authzKeys|
    requires var a, b := s.authzs[s.authzKeys[i]], s.authzs[s.authzKeys[j]];
             (HttpHit(a, url) || DnsHit(a, url)) && (HttpHit(b, url) || DnsHit(b, url))
    ensures i == j
    ensures !(HttpHit(s.authzs[s.authzKeys[i]], url) && DnsHit(s.authzs[s.authzKeys[i]], url))
  {
    hide Decimal, LastSegment;
    assert Numbered(s.authzs[s.authzKeys[i]], i + 1);
    assert Numbered(s.authzs[s.authzKeys[j]], j + 1);
    DnsSuffixInjective(i + 1, j + 1);
    DnsSuffixInjective(j + 1, i + 1);
    DnsSuffixInjective(i + 1, i + 1);
    if Decimal(i + 1) == Decimal(j + 1) { DecimalInjective(i + 1, j + 1); }
  }

  lemma {:induction false} FindChallengeIs(authzs: map<string, Authz>, keys: seq<string>, url: string)
    ensures FindChallenge(authzs, keys, url).Some? ==>
              exists i :: 0 <= i < |keys| && keys[i] == FindChallenge(authzs, keys, url).value
                          && keys[i] in authzs && (HttpHit(authzs[keys[i]], url) || DnsHit(authzs[keys[i]], url))
    ensures FindChallenge(authzs, keys, url).None? ==>
              forall i :: 0 <= i < |keys| && keys[i] in authzs ==>
                !HttpHit(authzs[keys[i]], url) && !DnsHit(authzs[keys[i]], url)
  {
    hide HttpHit, DnsHit;
    if keys != [] && !(keys[0] in authzs && (HttpHit(authzs[keys[0]], url) || DnsHit(authzs[keys[0]], url))) {
      FindChallengeIs(authzs, keys[1..], url);
      var rest := FindChallenge(authzs, keys[1..], url);
      if rest.Some? {
        var i :| 0 <= i < |keys[1..]| && keys[1..][i] == rest.value && keys[1..][i] in authzs
                 && (HttpHit(authzs[keys[1..][i]], url) || DnsHit(authzs[keys[1..][i]], url));
        assert keys[i + 1] == rest.value;
      } else {
        assert forall i :: 1 <= i < |keys| ==> keys[i] == keys[1..][i - 1];
      }
    }
  }

  // ---------------------------------------------------------------- status changes

  lemma CoveredKept(authzs: map<string, Authz>, other: map<string, Authz>, urls: seq<string>, ids: seq<Identifier>)
    requires Covered(authzs, urls, ids)
    requires forall key :: key in authzs ==> key in other && AuthzEvolves(authzs[key], other[key])
    ensures Covered(other, urls, ids)
  {
    forall i | 0 <= i < |urls| ensures urls[i] in other && Covers(other[urls[i]], ids[i]) {
      assert AuthzEvolves(authzs[urls[i]], other[urls[i]]);
    }
  }

  lemma FitKept(authzs: map<string, Authz>, other: map<string, Authz>, certificates: map<string, Certificate>,
                more: map<string, Certificate>, orders: map<string, Order>)
    requires OrdersFit(authzs, certificates, orders)
    requires forall key :: key in authzs ==> key in other && AuthzEvolves(authzs[key], other[key])
    requires forall c :: c in certificates ==> c in more && more[c] == certificates[c]
    ensures OrdersFit(other, more, orders)
  {
    hide Covered, ValidIdentifiers, NamesFor, AuthzEvolves;
    forall key | key in orders ensures OrderFits(other, more, orders[key]) {
      CoveredKept(authzs, other, orders[key].authzUrls, orders[key].identifiers);
    }
  }

  lemma SetStatusAuthzs(s: State, key: string, status: AuthzStatus, challenge: ChallengeStatus)
    requires AuthzsConsistent(s.authzs, s.authzKeys, s.authzCounter) && key in s.authzs
    ensures var t := SetStatus(s, key, status, challenge);
            && AuthzsConsistent(t.authzs, t.authzKeys, t.authzCounter)
            && (forall k :: k in s.authzs ==> k in t.authzs && AuthzEvolves(s.authzs[k], t.authzs[k]))
  {
    hide LastSegment, Decimal;
  }

  lemma SetStatusSafe(s: State, key: string, status: AuthzStatus, challenge: ChallengeStatus)
    requires Inv(s) && key in s.authzs
    ensures Safe(s, SetStatus(s, key, status, challenge))
  {
    hide AuthzsConsistent, OrdersKeyed, OrdersFit, CertificatesNumbered, CertificatesOwned, CertificatesUnshared,
      Advertised, AllValid, AuthzEvolves;
    var t := SetStatus(s, key, status, challenge);
    SetStatusAuthzs(s, key, status, challenge);
    FitKept(s.authzs, t.authzs, s.certificates, t.certificates, s.orders);
  }

  // ---------------------------------------------------------------- orders becoming ready

  /** The second order map differs from the first in at most this order's status and
      certificate. */
  predicate OrderReplaced(orders: map<string, Order>, other: map<string, Order>, url: string) {
    && url in orders && url in other
    && other == orders[url := other[url]]
    && other[url] == orders[url].(status := other[url].status, certificateUrl := other[url].certificateUrl)
  }

  lemma {:induction false} AdvertisedKept(orders: map<string, Order>, other: map<string, Order>, keys: seq<string>)
    requires forall i :: 0 <= i < |keys| ==>
               keys[i] in orders && keys[i] in other && orders[keys[i]].authzUrls == other[keys[i]].authzUrls
    ensures Advertised(other, keys) == Advertised(orders, keys)
  {
    if keys != [] { AdvertisedKept(orders, other, keys[..|keys| - 1]); }
  }

  lemma ReplacedKeyed(orders: map<string, Order>, other: map<string, Order>, url: string, keys: seq<string>)
    requires OrdersKeyed(orders, keys, |keys|) && OrderReplaced(orders, other, url)
    ensures OrdersKeyed(other, keys, |keys|)
    ensures Advertised(other, keys) == Advertised(orders, keys)
  {
    hide KeysNumbered, Advertised;
    AdvertisedKept(orders, other, keys);
  }

  lemma ReplacedFit(authzs: map<string, Authz>, certificates: map<string, Certificate>,
                    orders: map<string, Order>, other: map<string, Order>, url: string)
    requires OrdersFit(authzs, certificates, orders) && OrderReplaced(orders, other, url)
    requires ValidIdentifiers(other[url].identifiers) && Certified(certificates, other[url])
    ensures OrdersFit(authzs, certificates, other)
  {
    hide Covered, ValidIdentifiers, Certified;
    forall key | key in other ensures OrderFits(authzs, certificates, other[key]) {
      assert OrderFits(authzs, certificates, orders[key]);
    }
  }

  lemma OwnedKept(certificates: map<string, Certificate>, orders: map<string, Order>, other: map<string, Order>)
    requires CertificatesOwned(certificates, orders)
    requires forall key :: key in orders && orders[key].certificateUrl.Some? ==>
               key in other && other[key].certificateUrl == orders[key].certificateUrl
    ensures CertificatesOwned(certificates, other)
  {
    forall c | c in certificates ensures exists key :: key in other && other[key].certificateUrl == Some(c) {
      var key :| key in orders && orders[key].certificateUrl == Some(c);
      assert other[key].certificateUrl == Some(c);
    }
  }

  lemma OrderOf(s: State, url: string)
    requires Inv(s) && url in s.orders
    ensures OrderFits(s.authzs, s.certificates, s.orders[url]) && s.orders[url].url == url
  {
    hide OrderFits, KeysNumbered, Advertised, AuthzsConsistent, CertificatesNumbered, CertificatesOwned,
      CertificatesUnshared;
    var i :| 0 <= i < |s.orderKeys| && s.orderKeys[i] == url;
  }

  lemma PromoteEvolves(s: State, url: string)
    requires url in s.orders && Promote(s, url).orders[url].certificateUrl == s.orders[url].certificateUrl
    ensures Evolves(s, Promote(s, url))
    ensures OrderReplaced(s.orders, Promote(s, url).orders, url)
  {
    hide AllValid;
  }

  lemma PromoteSafe(s: State, url: string)
    requires Inv(s) && url in s.orders
    ensures Safe(s, Promote(s, url))
  {
    hide AuthzsConsistent, OrdersKeyed, OrdersFit, CertificatesNumbered, CertificatesOwned, Covered, ValidIdentifiers,
      Advertised, AllValid, NamesFor, Evolves;
    var t := Promote(s, url);
    OrderOf(s, url);
    KeyCount(s);
    PromoteEvolves(s, url);
    ReplacedKeyed(s.orders, t.orders, url, s.orderKeys);
    ReplacedFit(s.authzs, s.certificates, s.orders, t.orders, url);
    OwnedKept(s.certificates, s.orders, t.orders);
  }

  // ---------------------------------------------------------------- issuance

  lemma FreshCertUrl(s: State, base: string, certificate: Certificate)
    requires CertificatesNumbered(s.certificates, s.certCounter)
    ensures var c := CertUrl(base, s.certCounter + 1);
            && c !in s.certificates
            && CertificatesNumbered(s.certificates[c := certificate], s.certCounter + 1)
  {
    hide LastSegment, Decimal, CertUrl;
    var c := CertUrl(base, s.certCounter + 1);
    UrlNumbers(base, s.certCounter + 1);
    if c in s.certificates {
      var n :| 1 <= n <= s.certCounter && LastSegment(c) == Decimal(n);
      DecimalInjective(n, s.certCounter + 1);
    }
    forall e | e in s.certificates[c := certificate]
      ensures exists n :: 1 <= n <= s.certCounter + 1 && LastSegment(e) == Decimal(n)
    {
      if e != c {
        var n :| 1 <= n <= s.certCounter && LastSegment(e) == Decimal(n);
      }
    }
  }

  lemma IssuedOwnership(certificates: map<string, Certificate>, orders: map<string, Order>, other: map<string, Order>,
                        url: string, c: string, certificate: Certificate)
    requires CertificatesOwned(certificates, orders) && CertificatesUnshared(orders) && c !in certificates
    requires OrderReplaced(orders, other, url) && orders[url].certificateUrl == None
             && other[url].certificateUrl == Some(c)
    requires forall key :: key in orders && orders[key].certificateUrl.Some? ==>
             orders[key].certificateUrl.value in certificates
    ensures CertificatesOwned(certificates[c := certificate], other)
    ensures CertificatesUnshared(other)
  {
    OwnedKept(certificates, orders, other);
    forall d | d in certificates[c := certificate]
      ensures exists key :: key in other && other[key].certificateUrl == Some(d)
    {
      if d == c { assert other[url].certificateUrl == Some(d); }
    }
  }

  lemma CertificatesKnown(s: State)
    requires OrdersFit(s.authzs, s.certificates, s.orders)
    ensures forall key :: key in s.orders && s.orders[key].certificateUrl.Some? ==>
              s.orders[key].certificateUrl.value in s.certificates
  {
    hide Covered, ValidIdentifiers, NamesFor;
  }

  lemma IssueSafe(s: State, base: string, url: string, certificate: Certificate)
    requires Inv(s) && url in s.orders && s.orders[url].status == OrderReady
    requires ValidIdentifiers(s.orders[url].identifiers)
    requires certificate.sans == NamesFor(s.orders[url].identifiers)
    ensures Safe(s, Issue(s, base, url, certificate).0)
  {
    hide AuthzsConsistent, OrdersKeyed, OrdersFit, CertificatesNumbered, CertificatesOwned, CertificatesUnshared,
      Covered, ValidIdentifiers, Advertised, AllValid, NamesFor, CertUrl, AuthzEvolves;
    var t := Issue(s, base, url, certificate).0;
    var c := CertUrl(base, s.certCounter + 1);
    OrderOf(s, url);
    KeyCount(s);
    FreshCertUrl(s, base, certificate);
    CertificatesKnown(s);
    EvolvesReflexive(s);
    FitKept(s.authzs, t.authzs, s.certificates, t.certificates, s.orders);
    ReplacedKeyed(s.orders, t.orders, url, s.orderKeys);
    ReplacedFit(t.authzs, t.certificates, s.orders, t.orders, url);
    IssuedOwnership(s.certificates, s.orders, t.orders, url, c, certificate);
  }

  lemma FinalizeSafe(s: State, base: string, path: string, payload: map<string, Json>)
    requires Inv(s)
    ensures Safe(s, Finalize(s, base, path, payload).0)
  {
    hide Inv, DecodeCsr, LastSegment, AllValid, CertUrl, ValidIdentifiers, NamesFor, SignCsr, Evolves, Promote, Issue;
    var url := base + "/order/" + LastSegment(path);
    EvolvesReflexive(s);
    if url in s.orders {
      PromoteSafe(s, url);
      PromotedOrder(s, url);
      var promoted := Promote(s, url);
      var order := promoted.orders[url];
      var decoded := DecodeCsr(Get(payload, "csr"), order.identifiers);
      if order.status == OrderReady && decoded.Some? {
        SignedNames(Get(payload, "csr"), order.identifiers);
        var certificate := SignCsr(decoded.value.0, decoded.value.1);
        IssueSafe(promoted, base, url, certificate);
        EvolvesThroughReady(s, base, url, certificate);
      }
    }
  }

  lemma PromotedOrder(s: State, url: string)
    requires url in s.orders
    ensures url in Promote(s, url).orders
  {
  }

  lemma SignedNames(field: Json, ids: seq<Identifier>)
    requires DecodeCsr(field, ids).Some?
    ensures ValidIdentifiers(ids)
    ensures SignCsr(DecodeCsr(field, ids).value.0, DecodeCsr(field, ids).value.1).sans == NamesFor(ids)
  {
    hide Accepts;
  }

  lemma EvolvesThroughReady(s: State, base: string, url: string, certificate: Certificate)
    requires Inv(s) && url in s.orders && Promote(s, url).orders[url].status == OrderReady
    ensures Evolves(s, Issue(Promote(s, url), base, url, certificate).0)
  {
    hide AuthzsConsistent, OrdersKeyed, OrdersFit, CertificatesNumbered, CertificatesOwned, CertificatesUnshared,
      Covered, ValidIdentifiers, Advertised, AllValid, NamesFor, CertUrl;
    OrderOf(s, url);
    FreshCertUrl(s, base, certificate);
  }

  // ---------------------------------------------------------------- new orders

  lemma NothingMinted(authzs: map<string, Authz>)
    ensures StoreAuthzs(authzs, []) == authzs && UrlsOf([]) == []
  {
  }

  lemma MintedStep(authzs: map<string, Authz>, base: string, after: nat, ids: seq<Identifier>, tokens: nat -> string,
                   k: nat)
    requires k < |ids|
    ensures var all := MintAuthzs(base, after, ids, tokens);
            var authz := MintAuthz(base, after + k + 1, ids[k], tokens(k));
            && StoreAuthzs(authzs, all[..k + 1]) == StoreAuthzs(authzs, all[..k])[authz.url := authz]
            && UrlsOf(all[..k + 1]) == UrlsOf(all[..k]) + [authz.url]
  {
    hide MintAuthz;
    var all := MintAuthzs(base, after, ids, tokens);
    assert all[..k + 1][..k] == all[..k];
  }

  /** None of the URLs is taken, and no two are the same. */
  predicate Unstored(authzs: map<string, Authz>, minted: seq<Authz>) {
    && (forall i :: 0 <= i < |minted| ==> minted[i].url !in authzs)
    && (forall i, j :: 0 <= i < j < |minted| ==> minted[i].url != minted[j].url)
  }

  /** The dictionary holds what it held and the new authorizations, and nothing else. */
  predicate Stored(authzs: map<string, Authz>, minted: seq<Authz>, stored: map<string, Authz>) {
    && (forall key :: key in authzs ==> key in stored && stored[key] == authzs[key])
    && (forall i :: 0 <= i < |minted| ==> minted[i].url in stored && stored[minted[i].url] == minted[i])
    && (forall key :: key in stored ==> key in authzs || exists i :: 0 <= i < |minted| && minted[i].url == key)
  }

  lemma {:induction false} StoredAuthzs(authzs: map<string, Authz>, minted: seq<Authz>)
    requires Unstored(authzs, minted)
    ensures Stored(authzs, minted, StoreAuthzs(authzs, minted))
  {
    hide Stored, Unstored;
    if minted == [] {
      StoredNothing(authzs);
    } else {
      var front, last := minted[..|minted| - 1], minted[|minted| - 1];
      assert minted == front + [last];
      UnstoredFront(authzs, front, last);
      StoredAuthzs(authzs, front);
      StoredOneMore(authzs, StoreAuthzs(authzs, front), front, last);
    }
  }

  lemma StoredNothing(authzs: map<string, Authz>)
    ensures Stored(authzs, [], authzs)
  {
  }

  lemma UnstoredFront(authzs: map<string, Authz>, front: seq<Authz>, last: Authz)
    requires Unstored(authzs, front + [last])
    ensures Unstored(authzs, front) && last.url !in authzs
    ensures forall i :: 0 <= i < |front| ==> front[i].url != last.url
  {
    var minted := front + [last];
    assert minted[|front|] == last;
    assert forall i :: 0 <= i < |front| ==> minted[i] == front[i];
  }

  lemma StoredOneMore(authzs: map<string, Authz>, before: map<string, Authz>, front: seq<Authz>, last: Authz)
    requires Stored(authzs, front, before)
    requires last.url !in authzs && forall i :: 0 <= i < |front| ==> front[i].url != last.url
    ensures Stored(authzs, front + [last], before[last.url := last])
  {
    var stored, minted := before[last.url := last], front + [last];
    forall key | key in stored ensures key in authzs || exists i :: 0 <= i < |minted| && minted[i].url == key {
      if key == last.url {
        assert minted[|front|].url == key;
      } else if key !in authzs {
        var i :| 0 <= i < |front| && front[i].url == key;
        assert minted[i].url == key;
      }
    }
  }

  lemma MintedNumbered(base: string, n: nat, id: Identifier, token: string)
    ensures Numbered(MintAuthz(base, n, id, token), n)
    ensures Covers(MintAuthz(base, n, id, token), id)
  {
    hide LastSegment, AuthzUrl, ChallengeUrl, DnsChallengeUrl, Decimal;
    UrlNumbers(base, n);
  }

  lemma MintedFresh(s: State, base: string, ids: seq<Identifier>, tokens: nat -> string)
    requires AuthzsConsistent(s.authzs, s.authzKeys, s.authzCounter)
    ensures Unstored(s.authzs, MintAuthzs(base, s.authzCounter, ids, tokens))
  {
    hide LastSegment, MintAuthz, Decimal;
    var minted := MintAuthzs(base, s.authzCounter, ids, tokens);
    forall i | 0 <= i < |minted|
      ensures minted[i].url !in s.authzs
      ensures forall j :: i < j < |minted| ==> minted[i].url != minted[j].url
    {
      MintedNumbered(base, s.authzCounter + i + 1, ids[i], tokens(i));
      forall j | i < j < |minted| ensures minted[i].url != minted[j].url {
        MintedNumbered(base, s.authzCounter + j + 1, ids[j], tokens(j));
        if minted[i].url == minted[j].url { DecimalInjective(s.authzCounter + i + 1, s.authzCounter + j + 1); }
      }
      if minted[i].url in s.authzs {
        var k :| 0 <= k < |s.authzKeys| && s.authzKeys[k] == minted[i].url;
        DecimalInjective(s.authzCounter + i + 1, k + 1);
      }
    }
  }

  lemma PlacedAuthzs(s: State, base: string, ids: seq<Identifier>, tokens: nat -> string)
    requires AuthzsConsistent(s.authzs, s.authzKeys, s.authzCounter)
    ensures var minted := MintAuthzs(base, s.authzCounter, ids, tokens);
            var stored := StoreAuthzs(s.authzs, minted);
            && AuthzsConsistent(stored, s.authzKeys + UrlsOf(minted), s.authzCounter + |ids|)
            && Covered(stored, UrlsOf(minted), ids)
            && (forall key :: key in s.authzs ==> key in stored && stored[key] == s.authzs[key])
            && (forall i :: 0 <= i < |minted| ==> minted[i].url in stored && stored[minted[i].url] == minted[i])
  {
    hide AuthzsConsistent, Numbered, StoreAuthzs, Covers, MintAuthz;
    var minted := MintAuthzs(base, s.authzCounter, ids, tokens);
    MintedFresh(s, base, ids, tokens);
    StoredAuthzs(s.authzs, minted);
    forall i | 0 <= i < |minted|
      ensures Numbered(minted[i], s.authzCounter + i + 1) && Covers(minted[i], ids[i])
    {
      MintedNumbered(base, s.authzCounter + i + 1, ids[i], tokens(i));
    }
    ExtendedAuthzs(s.authzs, s.authzKeys, s.authzCounter, StoreAuthzs(s.authzs, minted), minted);
  }

  lemma ExtendedAuthzs(authzs: map<string, Authz>, keys: seq<string>, count: nat, stored: map<string, Authz>,
                       minted: seq<Authz>)
    requires AuthzsConsistent(authzs, keys, count)
    requires forall key :: key in authzs ==> key in stored && stored[key] == authzs[key]
    requires forall i :: 0 <= i < |minted| ==> minted[i].url in stored && stored[minted[i].url] == minted[i]
    requires forall i :: 0 <= i < |minted| ==> Numbered(minted[i], count + i + 1)
    requires forall key :: key in stored ==> key in authzs || exists i :: 0 <= i < |minted| && minted[i].url == key
    ensures AuthzsConsistent(stored, keys + UrlsOf(minted), count + |minted|)
  {
    hide Numbered;
    var all := keys + UrlsOf(minted);
    forall key | key in stored ensures key in all {
      if key !in authzs {
        var i :| 0 <= i < |minted| && minted[i].url == key;
        assert all[|keys| + i] == key;
      }
    }
    forall i | 0 <= i < |all|
      ensures all[i] in stored && stored[all[i]].url == all[i] && Numbered(stored[all[i]], i + 1)
    {
      if i >= |keys| { assert all[i] == minted[i - |keys|].url; }
    }
  }

  lemma FreshOrderUrl(orders: map<string, Order>, keys: seq<string>, base: string)
    requires OrdersKeyed(orders, keys, |keys|)
    ensures OrderUrl(base, |keys| + 1) !in orders
    ensures KeysNumbered(keys + [OrderUrl(base, |keys| + 1)])
  {
    hide LastSegment, Decimal, OrderUrl;
    var u := OrderUrl(base, |keys| + 1);
    UrlNumbers(base, |keys| + 1);
    if u in orders {
      var i :| 0 <= i < |keys| && keys[i] == u;
      DecimalInjective(i + 1, |keys| + 1);
    }
  }

  lemma PlacedKeyed(orders: map<string, Order>, keys: seq<string>, order: Order)
    requires OrdersKeyed(orders, keys, |keys|) && order.url !in orders && KeysNumbered(keys + [order.url])
    ensures OrdersKeyed(orders[order.url := order], keys + [order.url], |keys| + 1)
    ensures Advertised(orders[order.url := order], keys + [order.url]) == Advertised(orders, keys) + order.authzUrls
  {
    hide KeysNumbered;
    assert (keys + [order.url])[..|keys|] == keys;
    AdvertisedKept(orders, orders[order.url := order], keys);
  }

  lemma PlaceOrderSafe(s: State, base: string, ids: seq<Identifier>, tokens: nat -> string)
    requires Inv(s) && ids != [] && ValidIdentifiers(ids)
    ensures Safe(s, PlaceOrder(s, base, ids, tokens).0)
  {
    hide AuthzsConsistent, OrdersKeyed, OrdersFit, CertificatesNumbered, CertificatesOwned, Covered, ValidIdentifiers,
      Advertised, AllValid, OrderUrl, FinalizeUrl, MintAuthzs, StoreAuthzs, UrlsOf, KeysNumbered;
    var t := PlaceOrder(s, base, ids, tokens).0;
    var order := t.orders[OrderUrl(base, s.orderCounter + 1)];
    KeyCount(s);
    PlacedAuthzs(s, base, ids, tokens);
    FreshOrderUrl(s.orders, s.orderKeys, base);
    PlacedKeyed(s.orders, s.orderKeys, order);
    FitKept(s.authzs, t.authzs, s.certificates, t.certificates, s.orders);
    PlacedFit(t.authzs, t.certificates, s.orders, order);
    OwnedKept(s.certificates, s.orders, t.orders);
  }

  lemma KeyCount(s: State)
    requires OrdersKeyed(s.orders, s.orderKeys, s.orderCounter)
    ensures |s.orderKeys| == s.orderCounter
  {
  }

  lemma PlacedFit(authzs: map<string, Authz>, certificates: map<string, Certificate>, orders: map<string, Order>,
                  order: Order)
    requires OrdersFit(authzs, certificates, orders)
    requires order.identifiers != [] && ValidIdentifiers(order.identifiers)
    requires Covered(authzs, order.authzUrls, order.identifiers)
    requires order.status == OrderPending && order.certificateUrl == None
    ensures OrdersFit(authzs, certificates, orders[order.url := order])
  {
    hide Covered, ValidIdentifiers, NamesFor;
  }

  // ---------------------------------------------------------------- every request

  /** The step relation looks only at the dictionaries, not at the other counters. */
  lemma SafeFrame(s: State, t: State, nonces: nat, accounts: seq<Account>, count: nat)
    requires Safe(s, t)
    ensures Safe(s, t.(nonceCounter := nonces, accounts := accounts, accountCounter := count))
    ensures Inv(s) ==> Inv(s.(nonceCounter := nonces, accounts := accounts, accountCounter := count))
  {
    hide AuthzsConsistent, OrdersKeyed, OrdersFit, CertificatesNumbered, CertificatesOwned, CertificatesUnshared,
      Advertised, AllValid, OrderEvolves, AuthzEvolves;
  }

  lemma NewAccountSafe(s: State, base: string, jws: Jws)
    requires Inv(s)
    ensures Safe(s, NewAccount(s, base, jws).0)
  {
    hide Inv, Evolves;
    EvolvesReflexive(s);
    var t := NewAccount(s, base, jws).0;
    SafeFrame(s, s, t.nonceCounter, t.accounts, t.accountCounter);
  }

  lemma NewOrderSafe(s: State, base: string, payload: map<string, Json>, tokens: nat -> string)
    requires Inv(s)
    ensures Safe(s, NewOrder(s, base, payload, tokens).0)
  {
    hide Inv, Evolves, NormalizeIdentifiers, ValidIdentifiers, PlaceOrder;
    EvolvesReflexive(s);
    var parsed := NormalizeIdentifiers(Get(payload, "identifiers"));
    if parsed.Ok? {
      NormalizedIdentifiersValid(Get(payload, "identifiers"));
      PlaceOrderSafe(s, base, parsed.value, tokens);
    }
  }

  lemma RespondChallengeSafe(approval: Approval, s: State, url: string)
    requires Inv(s)
    ensures Safe(s, RespondChallenge(approval, s, url).0)
    ensures var outcome := RespondChallenge(approval, s, url).1;
            outcome.AwaitVerdict? ==> approval == External && outcome.key in s.authzs
  {
    hide Inv, Evolves, FindChallenge, SetStatus;
    EvolvesReflexive(s);
    var found := FindChallenge(s.authzs, s.authzKeys, url);
    if found.Some? && found.value in s.authzs {
      SetStatusSafe(s, found.value, AuthzValid, ChallengeValid);
      SetStatusSafe(s, found.value, s.authzs[found.value].status, ChallengeProcessing);
    }
  }

  lemma SettleChallengeSafe(s: State, key: string, url: string, verdict: bool)
    requires Inv(s) && key in s.authzs
    ensures Safe(s, SettleChallenge(s, key, url, verdict).0)
  {
    hide Inv, Evolves, SetStatus;
    SetStatusSafe(s, key, AuthzValid, ChallengeValid);
    SetStatusSafe(s, key, AuthzInvalid, ChallengeInvalid);
  }

  /** Every routed request, in every approval mode, is a safe step. */
  lemma HandleSafe(approval: Approval, s: State, req: Request, jws: Jws, tokens: nat -> string)
    requires Inv(s)
    ensures Safe(s, Handle(approval, s, req, jws, tokens).0)
    ensures var outcome := Handle(approval, s, req, jws, tokens).1;
            outcome.AwaitVerdict? ==> approval == External && outcome.key in s.authzs
  {
    hide Inv, Evolves, RouteOf, Finalize, NewOrder, NewAccount, Promote, RespondChallenge;
    EvolvesReflexive(s);
    NewAccountSafe(s, req.base, jws);
    NewOrderSafe(s, req.base, jws.payload, tokens);
    RespondChallengeSafe(approval, s, req.base + req.path);
    FinalizeSafe(s, req.base, req.path, jws.payload);
    if req.base + req.path in s.orders { PromoteSafe(s, req.base + req.path); }
  }

  lemma ServeSafe(approval: Approval, s: State, req: Request, tokens: nat -> string)
    requires Inv(s)
    ensures Safe(s, Serve(approval, s, req, tokens).0)
    ensures var outcome := Serve(approval, s, req, tokens).1;
            outcome.AwaitVerdict? ==> approval == External && outcome.key in s.authzs
  {
    hide Inv, Evolves, RouteOf, ParseJws, Handle;
    EvolvesReflexive(s);
    var mode := ModeOf(RouteOf(req.path));
    if mode.Some? && ParseJws(req.raw, mode.value).Some? {
      HandleSafe(approval, s, req, ParseJws(req.raw, mode.value).value, tokens);
    }
  }

  // ---------------------------------------------------------------- finalization, exactly

  /** The order exists and is ready, or becomes ready as soon as it is looked at. */
  predicate Finalizable(s: State, url: string) {
    && url in s.orders
    && (s.orders[url].status == OrderReady
        || (s.orders[url].status == OrderPending && AllValid(s, s.orders[url].authzUrls)))
  }

  function FinalizedUrl(base: string, path: string): string {
    base + "/order/" + LastSegment(path)
  }

  /** The order's first identifier can be a common name. */
  predicate FirstFits(ids: seq<Identifier>) {
    ids != [] ==> |ids[0].value| <= MAX_COMMON_NAME
  }

  lemma DecodedFits(field: Json, ids: seq<Identifier>)
    requires DecodeCsr(field, ids).Some?
    ensures CommonNameFits(DecodeCsr(field, ids).value.1) <==> FirstFits(ids)
  {
    hide Accepts, ValidIdentifier, ValueText;
    if ids != [] { FirstTextFits(ids); }
  }

  /** Finalization succeeds exactly when the order can be finalized, the request carries a
      proper CSR for it and its first identifier fits a common name. An order that can be
      finalized is refused with badCSR exactly without a proper CSR, and the name that does
      not fit is the one case in which the signing raises. Unless it succeeds, nothing
      changes but that the order may have become ready. */
  lemma FinalizeExact(s: State, base: string, path: string, payload: map<string, Json>)
    ensures var url, response := FinalizedUrl(base, path), Finalize(s, base, path, payload).1;
            if url !in s.orders then response == NotFound
            else if !Finalizable(s, url) then response == Problem(403, OrderNotReady)
            else if !HasProperCsr(Get(payload, "csr"), s.orders[url].identifiers) then response == Problem(400, BadCsr)
            else if !FirstFits(s.orders[url].identifiers) then response == Unhandled
            else response.OrderDoc?
    ensures !Finalize(s, base, path, payload).1.OrderDoc? ==>
              Finalize(s, base, path, payload).0 ==
              if FinalizedUrl(base, path) in s.orders then Promote(s, FinalizedUrl(base, path)) else s
  {
    hide DecodeCsr, HasProperCsr, LastSegment, AllValid, CertUrl, SignCsr, CommonNameFits, FirstFits, ProperCsr,
      ValidIdentifiers;
    var url := FinalizedUrl(base, path);
    if url in s.orders {
      DecodeSucceeds(Get(payload, "csr"), s.orders[url].identifiers);
      if DecodeCsr(Get(payload, "csr"), s.orders[url].identifiers).Some? {
        DecodedFits(Get(payload, "csr"), s.orders[url].identifiers);
      }
    }
  }

  /** The order is valid and its certificate has the order's SANs and this key. */
  predicate IssuedTo(t: State, url: string, certUrl: string, ids: seq<Identifier>, key: PublicKey) {
    && url in t.orders && t.orders[url].status == OrderValid && t.orders[url].certificateUrl == Some(certUrl)
    && t.orders[url].identifiers == ids && ValidIdentifiers(ids)
    && certUrl in t.certificates && t.certificates[certUrl] == Certificate(NamesFor(ids), key)
  }

  /** And then the order's certificate has the order's identifiers and the CSR's key. */
  lemma FinalizeIssues(s: State, base: string, path: string, payload: map<string, Json>, url: string, der: Bytes)
    requires url == FinalizedUrl(base, path) && Finalizable(s, url) && ValidIdentifiers(s.orders[url].identifiers)
    requires ProperCsr(Get(payload, "csr"), der, s.orders[url].identifiers) && FirstFits(s.orders[url].identifiers)
    ensures IssuedTo(Finalize(s, base, path, payload).0, url, CertUrl(base, s.certCounter + 1),
                     s.orders[url].identifiers, LoadCsr(der).value.key)
  {
    hide LastSegment, AllValid, CertUrl, NamesFor, SignCsr, ValidIdentifiers, DecodeCsr, CommonNameFits, FirstFits,
      BindsTo, Base64Url.Encode, ValuesOfIdentifiers;
    var field, ids := Get(payload, "csr"), s.orders[url].identifiers;
    DecodeExact(field, ids, der, ValuesOfIdentifiers(ids));
    DecodedFits(field, ids);
    SignedNames(field, ids);
    SignedKey(field, ids);
  }

  lemma SignedKey(field: Json, ids: seq<Identifier>)
    requires DecodeCsr(field, ids).Some?
    ensures var d := DecodeCsr(field, ids).value; SignCsr(d.0, d.1).key == LoadCsr(d.0).value.key
  {
    hide Accepts;
  }

  /** No certificate number was skipped. */
  predicate NoneSkipped(s: State) {
    |s.certificates| == s.certCounter
  }

  lemma IssueCounts(s: State, base: string, url: string, certificate: Certificate)
    requires CertificatesNumbered(s.certificates, s.certCounter) && NoneSkipped(s) && url in s.orders
    ensures NoneSkipped(Issue(s, base, url, certificate).0)
  {
    hide CertUrl, CertificatesNumbered;
    FreshCertUrl(s, base, certificate);
  }

  lemma FinalizeCounts(s: State, base: string, path: string, payload: map<string, Json>)
    requires CertificatesNumbered(s.certificates, s.certCounter) && NoneSkipped(s)
    ensures NoneSkipped(Finalize(s, base, path, payload).0)
  {
    hide DecodeCsr, LastSegment, CertUrl, SignCsr, Issue, CommonNameFits, CertificatesNumbered, AllValid;
    var url := FinalizedUrl(base, path);
    if url in s.orders {
      var promoted := Promote(s, url);
      var decoded := DecodeCsr(Get(payload, "csr"), promoted.orders[url].identifiers);
      if decoded.Some? { IssueCounts(promoted, base, url, SignCsr(decoded.value.0, decoded.value.1)); }
    }
  }

  /** Every request leaves no certificate number unused. */
  lemma ServeCounts(approval: Approval, s: State, req: Request, tokens: nat -> string)
    requires Inv(s) && NoneSkipped(s)
    ensures NoneSkipped(Serve(approval, s, req, tokens).0)
  {
    hide RouteOf, ParseJws, Finalize, NormalizeIdentifiers, FindChallenge, HttpHit, AllValid, CertificatesNumbered,
      AuthzsConsistent, OrdersKeyed, OrdersFit, CertificatesOwned, CertificatesUnshared, Advertised, MintAuthzs,
      StoreAuthzs, UrlsOf;
    var mode := ModeOf(RouteOf(req.path));
    if mode.Some? && ParseJws(req.raw, mode.value).Some? {
      FinalizeCounts(s, req.base, req.path, ParseJws(req.raw, mode.value).value.payload);
    }
  }

  /** The number of valid orders is the number of certificates. */
  lemma CertificateCount(s: State)
    requires Inv(s)
    ensures |set key | key in s.orders && s.orders[key].status == OrderValid| == |s.certificates|
  {
    hide AuthzsConsistent, OrdersKeyed, Advertised, LastSegment, Decimal, Covered, ValidIdentifiers, NamesFor;
    var valid := set key | key in s.orders && s.orders[key].status == OrderValid;
    forall key | key in valid
      ensures s.orders[key].certificateUrl.Some? && s.orders[key].certificateUrl.value in s.certificates
    {
      assert OrderFits(s.authzs, s.certificates, s.orders[key]);
    }
    forall c | c in s.certificates ensures exists key :: key in valid && s.orders[key].certificateUrl == Some(c) {
      var key :| key in s.orders && s.orders[key].certificateUrl == Some(c);
      assert OrderFits(s.authzs, s.certificates, s.orders[key]);
    }
    Bijection(valid, s.certificates.Keys, map key | key in valid :: s.orders[key].certificateUrl.value);
    assert |s.certificates.Keys| == |s.certificates|;
  }

  lemma {:induction false} Bijection(from: set<string>, onto: set<string>, f: map<string, string>)
    requires f.Keys == from
    requires forall x :: x in from ==> f[x] in onto
    requires forall y :: y in onto ==> exists x :: x in from && f[x] == y
    requires forall x, y :: x in from && y in from && f[x] == f[y] ==> x == y
    ensures |from| == |onto|
  {
    if from == {} {
      assert onto == {};
    } else {
      var x :| x in from;
      var rest := map y | y in from && y != x :: f[y];
      forall y | y in onto - {f[x]} ensures exists z :: z in from - {x} && rest[z] == y {
        var z :| z in from && f[z] == y;
        assert z in from - {x} && rest[z] == y;
      }
      Bijection(from - {x}, onto - {f[x]}, rest);
    }
  }

  /** The number of authorizations is the total number of identifiers over all orders. */
  function IdentifierTotal(orders: map<string, Order>, keys: seq<string>): nat {
    if keys == [] then 0
    else
      var last := keys[|keys| - 1];
      IdentifierTotal(orders, keys[..|keys| - 1]) + if last in orders then |orders[last].identifiers| else 0
  }

  lemma AuthorizationCount(s: State)
    requires Inv(s)
    ensures s.authzCounter == IdentifierTotal(s.orders, s.orderKeys)
  {
    hide OrdersKeyed, ValidIdentifiers, CertificatesNumbered, CertificatesOwned, CertificatesUnshared, Covers;
    AdvertisedTotal(s.authzs, s.certificates, s.orders, s.orderKeys);
  }

  lemma {:induction false} AdvertisedTotal(authzs: map<string, Authz>, certificates: map<string, Certificate>,
                                           orders: map<string, Order>, keys: seq<string>)
    requires OrdersFit(authzs, certificates, orders)
    ensures |Advertised(orders, keys)| == IdentifierTotal(orders, keys)
  {
    hide Covers, ValidIdentifiers, Certified;
    if keys != [] {
      AdvertisedTotal(authzs, certificates, orders, keys[..|keys| - 1]);
      var last := keys[|keys| - 1];
      if last in orders { assert OrderFits(authzs, certificates, orders[last]); }
    }
  }

  // ---------------------------------------------------------------- what is served

  /** In a consistent server a certificate is served under a URL exactly when some order
      advertises that URL; it then carries exactly that order's identifiers. */
  lemma ServedCertificate(s: State, url: string)
    requires Inv(s)
    ensures FetchCertificate(s, url).CertificateDoc? <==>
            exists key :: key in s.orders && s.orders[key].certificateUrl == Some(url)
    ensures forall key :: key in s.orders && s.orders[key].certificateUrl == Some(url) ==>
              && ValidIdentifiers(s.orders[key].identifiers)
              && FetchCertificate(s, url).certificate.sans == NamesFor(s.orders[key].identifiers)
  {
    hide AuthzsConsistent, OrdersKeyed, CertificatesNumbered, CertificatesUnshared, Advertised, Covered,
      ValidIdentifiers, NamesFor;
    forall key | key in s.orders && s.orders[key].certificateUrl == Some(url)
      ensures ValidIdentifiers(s.orders[key].identifiers)
      ensures url in s.certificates && s.certificates[url].sans == NamesFor(s.orders[key].identifiers)
    {
      assert OrderFits(s.authzs, s.certificates, s.orders[key]);
    }
  }

  predicate Offers(authz: Authz, url: string) {
    exists i :: 0 <= i < |ChallengesOf(authz)| && ChallengesOf(authz)[i].url == url
  }

  lemma OffersHits(authz: Authz, url: string)
    ensures Offers(authz, url) <==> HttpHit(authz, url) || DnsHit(authz, url)
  {
    var challenges := ChallengesOf(authz);
    if HttpHit(authz, url) { assert challenges[0].url == url; }
    if DnsHit(authz, url) { assert challenges[|challenges| - 1].url == url; }
  }

  /** The challenges an authorization document offers are exactly those for which a challenge
      request finds that authorization again. */
  lemma ServedChallenges(s: State, key: string, url: string)
    requires Inv(s) && key in s.authzs
    ensures Offers(s.authzs[key], url) <==> FindChallenge(s.authzs, s.authzKeys, url) == Some(key)
  {
    hide OrdersKeyed, OrdersFit, CertificatesNumbered, CertificatesOwned, CertificatesUnshared, Advertised, Numbered,
      HttpHit, DnsHit, Offers, FindChallenge;
    OffersHits(s.authzs[key], url);
    FindChallengeIs(s.authzs, s.authzKeys, url);
    var i :| 0 <= i < |s.authzKeys| && s.authzKeys[i] == key;
    var found := FindChallenge(s.authzs, s.authzKeys, url);
    if found.Some? {
      var j :| 0 <= j < |s.authzKeys| && s.authzKeys[j] == found.value
               && (HttpHit(s.authzs[s.authzKeys[j]], url) || DnsHit(s.authzs[s.authzKeys[j]], url));
      if Offers(s.authzs[key], url) { ChallengeHitUnique(s, i, j, url); }
    }
  }

  /** An authorization document names its identifier, and offers the HTTP challenge unless
      that is a wildcard and the DNS challenge unless it is an address. */
  lemma ServedAuthz(s: State, key: string, id: Identifier)
    requires key in s.authzs && Covers(s.authzs[key], id)
    ensures FetchAuthz(s, key).AuthzDoc?
    ensures var doc := FetchAuthz(s, key).authz;
            && doc.kind == id.kind && (if doc.wildcard then "*." + doc.value else doc.value) == id.value
            && doc.status == s.authzs[key].status
            && ((exists c :: c in doc.challenges && !c.isDns) <==> !doc.wildcard)
            && ((exists c :: c in doc.challenges && c.isDns) <==> doc.kind == DnsKind)
  {
    var a := s.authzs[key];
    var challenges := ChallengesOf(a);
    if a.wildcard { assert id.value == "*." + id.value[2..]; }
    if !a.wildcard { assert challenges[0] in challenges && !challenges[0].isDns; }
    if a.kind == DnsKind { assert challenges[|challenges| - 1] in challenges && challenges[|challenges| - 1].isDns; }
  }
}
