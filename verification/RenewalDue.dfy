/** Which bundles a sweep renews, and which are left, by the time they expire. */
module RenewalDue {
  import opened Wrappers
  import opened Text
  import opened Identifiers
  import opened CsrBinding
  import opened CertStore
  import opened Renewal
  import opened Recovery

  /** A day in microseconds. */
  const DAY: int := 24 * 60 * 60 * 1_000_000

  /** This many days from now. */
  function Ahead(now: int, days: int): int {
    now + days * DAY
  }

  predicate ExpiresBy(bundle: Bundle, time: int) {
    bundle.expiresAt <= time
  }

  lemma NeededByExpiry(bundle: Bundle, now: int, days: int)
    ensures NeedsRenewal(bundle, now, days) <==> ExpiresBy(bundle, Ahead(now, days))
  {
  }

  // ---------------------------------------------------------------- one bundle

  /** A sweep that meets one recoverable bundle, with an issuer that grants every request: it
      renews the bundle exactly when it expires at most `days` days of 24 hours after now. */
  lemma RenewedByExpiry(certs: Store, bundle: Bundle, now: int, days: int, issue: nat -> Issuer)
    requires Grants(issue(0)) && Renewable(bundle)
    ensures Recover(bundle).Some?
    ensures var (after, renewed) := Sweep(certs, [bundle], now, days, issue);
            if bundle.expiresAt <= now + days * 24 * 3_600_000_000
            then issue(0)(Recover(bundle).value).Some?
                 && var next := issue(0)(Recover(bundle).value).value;
                    renewed == [next] && after == certs[next.domain := next]
            else renewed == [] && after == certs
  {
    hide Sweep, Replacement, NeedsRenewal, Grants, Recover, CommonNameFits;
    NeededByExpiry(bundle, now, days);
    if NeedsRenewal(bundle, now, days) {
      ReplacementComes(bundle, now, days, issue(0));
      ReplacementIs(bundle, now, days, issue(0));
      SweepOne(certs, bundle, now, days, issue);
    } else {
      SweepSkips(certs, bundle, now, days, issue);
    }
  }

  lemma ReplacementIs(bundle: Bundle, now: int, days: int, issue: Issuer)
    requires Replacement(bundle, now, days, issue).Some?
    ensures Recover(bundle).Some? && Replacement(bundle, now, days, issue) == issue(Recover(bundle).value)
  {
    hide Recover, NeedsRenewal;
  }

  lemma SweepSkips(certs: Store, bundle: Bundle, now: int, days: int, issue: nat -> Issuer)
    requires !NeedsRenewal(bundle, now, days)
    ensures Sweep(certs, [bundle], now, days, issue) == (certs, [])
  {
    hide Recover, NeedsRenewal;
    assert [bundle][..0] == [];
    assert Sweep(certs, [], now, days, issue) == (certs, []);
  }

  /** Ten days before it expires a bundle is renewed thirty days ahead, but not nine. */
  lemma TenDaysLeft(certs: Store, bundle: Bundle, issue: nat -> Issuer)
    requires Grants(issue(0)) && Renewable(bundle)
    ensures var now := bundle.expiresAt - 10 * 24 * 3_600_000_000;
            && |Sweep(certs, [bundle], now, 30, issue).1| == 1
            && Sweep(certs, [bundle], now, 9, issue) == (certs, [])
  {
    hide Recover, Renewable, Grants, Sweep;
    RenewedByExpiry(certs, bundle, bundle.expiresAt - 10 * 24 * 3_600_000_000, 30, issue);
    RenewedByExpiry(certs, bundle, bundle.expiresAt - 10 * 24 * 3_600_000_000, 9, issue);
  }

  // ---------------------------------------------------------------- the whole store

  /** Whatever is issued expires after this time. */
  ghost predicate Outlasts(issue: Issuer, time: int) {
    forall values :: issue(values).Some? ==> issue(values).value.expiresAt > time
  }

  /** Some renewable bundle that expires by this time is renewed under the name. */
  predicate RenewedAs(certs: Store, time: int, name: string) {
    exists k :: k in certs && ExpiresBy(certs[k], time) && Renewable(certs[k]) && NextName(certs[k]) == name
  }

  /** The list holds every stored bundle, and nothing else. */
  ghost predicate Everything(certs: Store, bundles: seq<Bundle>) {
    Filed(certs) && forall b :: b in bundles <==> b.domain in certs && certs[b.domain] == b
  }

  ghost predicate Willing(issue: nat -> Issuer, time: int) {
    forall i :: Recovers(issue(i)) && Grants(issue(i)) && Outlasts(issue(i), time)
  }

  lemma OutlastsAhead(issue: Issuer, now: int, days: int)
    ensures IssuesAhead(issue, now, days) <==> Outlasts(issue, Ahead(now, days))
  {
  }

  lemma RefreshedByExpiry(certs: Store, now: int, days: int, name: string)
    ensures Refreshed(certs, now, days, name) <==> RenewedAs(certs, Ahead(now, days), name)
  {
    hide Renewable, NextName, NeedsRenewal, ExpiresBy, Ahead;
    forall k | k in certs ensures NeedsRenewal(certs[k], now, days) <==> ExpiresBy(certs[k], Ahead(now, days)) {
      NeededByExpiry(certs[k], now, days);
    }
  }

  /** A sweep over the whole store by willing issuers of lasting bundles, name by name: under a
      name that some renewable bundle expiring by the threshold is renewed as, there is
      afterwards a bundle that expires later; every other name holds what it held. */
  lemma SweepByExpiry(certs: Store, bundles: seq<Bundle>, now: int, days: int, issue: nat -> Issuer, name: string)
    requires Everything(certs, bundles) && Willing(issue, Ahead(now, days))
    ensures var after, time := Sweep(certs, bundles, now, days, issue).0, Ahead(now, days);
            if RenewedAs(certs, time, name) then name in after && after[name].expiresAt > time
            else Stored(after, name) == Stored(certs, name)
  {
    hide Recover, Renewable, NextName, Replacement, Recovers, Grants, Outlasts, IssuesAhead, Sweep, NeedsRenewal,
      Refreshed, RenewedAs, LastNamed, Ahead, Filed;
    forall i ensures IssuesAhead(issue(i), now, days) { OutlastsAhead(issue(i), now, days); }
    SweepExact(certs, bundles, now, days, issue, name);
    NamesRefreshed(certs, bundles, now, days, issue, name);
    RefreshedByExpiry(certs, now, days, name);
    LastNamedIs(bundles, now, days, issue, name);
    var last := LastNamed(bundles, now, days, issue, name);
    if last.Some? { ReplacedLater(bundles[last.value], now, days, issue(last.value)); }
  }

  lemma ReplacedLater(bundle: Bundle, now: int, days: int, issue: Issuer)
    requires Outlasts(issue, Ahead(now, days)) && Replacement(bundle, now, days, issue).Some?
    ensures Replacement(bundle, now, days, issue).value.expiresAt > Ahead(now, days)
  {
    hide Recover;
  }

  /** After the sweep no renewable bundle expires by the threshold. */
  predicate NoneExpires(certs: Store, time: int) {
    forall k :: k in certs && Renewable(certs[k]) ==> !ExpiresBy(certs[k], time)
  }

  /** Every renewable bundle that expires by the threshold has a name something is renewed as. */
  predicate AllRenewed(certs: Store, time: int) {
    forall k :: k in certs && Renewable(certs[k]) && ExpiresBy(certs[k], time) ==> RenewedAs(certs, time, k)
  }

  /** That no renewable bundle expires by the threshold after the sweep says exactly that every
      one of them that did had a name under which something was renewed. */
  lemma ClearedExactly(certs: Store, bundles: seq<Bundle>, now: int, days: int, issue: nat -> Issuer)
    requires Everything(certs, bundles) && Willing(issue, Ahead(now, days))
    ensures NoneExpires(Sweep(certs, bundles, now, days, issue).0, Ahead(now, days)) <==>
            AllRenewed(certs, Ahead(now, days))
  {
    hide Recover, Renewable, NextName, Recovers, Grants, Outlasts, Sweep, RenewedAs, Ahead, Everything, Willing;
    var after, time := Sweep(certs, bundles, now, days, issue).0, Ahead(now, days);
    forall name
      ensures if RenewedAs(certs, time, name) then name in after && after[name].expiresAt > time
              else Stored(after, name) == Stored(certs, name)
    {
      SweepByExpiry(certs, bundles, now, days, issue, name);
    }
    if NoneExpires(after, time) {
      forall k | k in certs && Renewable(certs[k]) && ExpiresBy(certs[k], time) ensures RenewedAs(certs, time, k) {
      }
    } else {
      var k :| k in after && Renewable(after[k]) && ExpiresBy(after[k], time);
      assert !RenewedAs(certs, time, k) && Stored(after, k) == Stored(certs, k);
      assert k in certs && certs[k] == after[k];
    }
  }

  /** Every renewable bundle is renewed under its own name. */
  predicate OwnNames(certs: Store) {
    forall k :: k in certs && Renewable(certs[k]) ==> NextName(certs[k]) == k
  }

  /** From such a store a sweep replaces a renewable bundle exactly when it expires by the
      threshold, and leaves no renewable bundle that does. */
  lemma OwnNamesCleared(certs: Store, bundles: seq<Bundle>, now: int, days: int, issue: nat -> Issuer)
    requires Everything(certs, bundles) && Willing(issue, Ahead(now, days)) && OwnNames(certs)
    ensures var after := Sweep(certs, bundles, now, days, issue).0;
            && NoneExpires(after, Ahead(now, days))
            && after.Keys == certs.Keys
            && forall k :: k in certs && Renewable(certs[k]) ==>
                 (after[k] != certs[k] <==> certs[k].expiresAt <= now + days * 24 * 3_600_000_000)
  {
    hide Recover, Renewable, NextName, Recovers, Grants, Outlasts, Sweep, RenewedAs, Everything, Willing;
    var after, time := Sweep(certs, bundles, now, days, issue).0, Ahead(now, days);
    forall name
      ensures RenewedAs(certs, time, name) <==>
              name in certs && Renewable(certs[name]) && ExpiresBy(certs[name], time)
      ensures if RenewedAs(certs, time, name) then name in after && after[name].expiresAt > time
              else Stored(after, name) == Stored(certs, name)
    {
      SweepByExpiry(certs, bundles, now, days, issue, name);
      OwnRenewed(certs, time, name);
    }
    ClearedExactly(certs, bundles, now, days, issue);
  }

  lemma OwnRenewed(certs: Store, time: int, name: string)
    requires OwnNames(certs)
    ensures RenewedAs(certs, time, name) <==> name in certs && Renewable(certs[name]) && ExpiresBy(certs[name], time)
  {
    hide Renewable, NextName, ExpiresBy;
  }

  // ---------------------------------------------------------------- an anchored store may keep one

  /** A bundle listed as `A` with a leaf for `a`, and one for `a` itself; the first expires now. */
  function TwoSpellings(sign: Signer): Store
    requires forall sans :: sign(sans).Some?
  {
    map["A" := UpperBundle(sign), "a" := SignedUntil([Dns("a")], sign, 1)]
  }

  /** An anchored store is not enough: the sweep renews the bundle named `A` as `a`, and `A`
      itself stays with its expiry. */
  lemma AnchoredKeepsOne(sign: Signer)
    requires Faithful(sign) && forall sans :: sign(sans).Some?
    ensures var certs := TwoSpellings(sign);
            var after := Sweep(certs, [certs["A"], certs["a"]], 0, 0, _ => Direct(sign)).0;
            && Filed(certs) && Anchored(certs) && after.Keys == {"A", "a"}
            && after["A"] == certs["A"] && Renewable(after["A"]) && ExpiresBy(after["A"], Ahead(0, 0))
  {
    hide Recover, Faithful, Sweep, Direct, SignedUntil, UpperBundle, Renewable, NextName, Recovers, Grants,
      NeedsRenewal, ValidDns, Lower;
    var certs := TwoSpellings(sign);
    DirectRecovers(sign);
    UpperRecovers(sign);
    LowerRecovers(sign);
    LettersDiffer();
    NeededByExpiry(certs["A"], 0, 0);
    Renewal.Overwritten(certs, certs["A"], certs["a"], Direct(sign));
  }

  lemma LowerRecovers(sign: Signer)
    requires Faithful(sign) && sign(NamesOf([Dns("a")])).Some?
    ensures var bundle := SignedUntil([Dns("a")], sign, 1);
            && bundle.domain == "a" && !NeedsRenewal(bundle, 0, 0)
            && Recover(bundle) == Some([Dns("a")]) && Renewable(bundle) && NextName(bundle) == "a"
  {
    hide Greedy, ValidDns, Lower, Matches, SansReadable, SanValues, Faithful, CertificateValues;
    LettersDiffer();
    SignedLeaf([Dns("a")], sign, 1);
    GreedyOnOwnTexts([Dns("a")]);
  }
}
