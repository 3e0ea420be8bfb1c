/** Renewing stored certificates: the identifiers a bundle stands for, signing them again,
    and repeated sweeps over the store. */
module Renewal {
  import opened Wrappers
  import opened Text
  import opened Json
  import opened Identifiers
  import opened CsrBinding
  import opened Recovery
  import opened CertStore
  import Acme

  // ---------------------------------------------------------------- what a bundle stands for

  /** `load_pem_x509_certificates`: which bytes hold which certificates is left arbitrary. */
  const LoadCerts: Bytes -> Option<seq<Acme.Certificate>>

  /** `certificate_identifier_values`; an absent SAN extension has no entries. */
  function CertificateValues(certificate: Acme.Certificate): (r: Option<seq<Value>>)
    ensures r.Some? ==> r.value != [] && ValidValues(r.value)
  {
    if certificate.sans == [] || !SansReadable(certificate.sans) then None
    else (SanValuesValid(certificate.sans); Some(SanValues(certificate.sans)))
  }

  /** The values of the single leaf certificate, once the metadata's primary name is checked. */
  function LeafValues(bundle: Bundle): Option<seq<Value>> {
    if bundle.domains == [] || bundle.domain != bundle.domains[0] then None
    else
      match LoadCerts(bundle.certPem)
      case None => None
      case Some(certificates) => if |certificates| != 1 then None else CertificateValues(certificates[0])
  }

  /** The file must hold one certificate and no chain, with readable SANs, and the metadata must
      name its first domain as the primary one. */
  lemma LeafValuesExact(bundle: Bundle, values: seq<Value>)
    ensures LeafValues(bundle) == Some(values) <==>
            && bundle.domains != [] && bundle.domains[0] == bundle.domain
            && exists certificate: Acme.Certificate :: LoadCerts(bundle.certPem) == Some([certificate])
                 && certificate.sans != [] && SansReadable(certificate.sans) && SanValues(certificate.sans) == values
  {
    hide SansReadable, SanValues, ValidValues;
    var certificates := LoadCerts(bundle.certPem);
    if certificates.Some? && |certificates.value| == 1 {
      assert certificates.value == [certificates.value[0]];
    }
  }

  /** `certificate_bundle_identifier_values`. */
  function Recover(bundle: Bundle): Option<seq<Value>> {
    match LeafValues(bundle)
    case None => None
    case Some(values) => Greedy(values, bundle.domains)
  }

  /** Recovery returns the leaf's values in the order of the metadata, and fails exactly
      when the leaf is unusable or no order of its values fits the metadata. */
  method RecoverIdentifiers(bundle: Bundle) returns (r: Option<seq<Value>>)
    ensures r == Recover(bundle)
    ensures r.Some? ==> LeafValues(bundle).Some? && Arranges(r.value, LeafValues(bundle).value, bundle.domains)
    ensures r.None? ==> LeafValues(bundle).None?
                        || !exists ordered :: Arranges(ordered, LeafValues(bundle).value, bundle.domains)
  {
    hide Greedy, Arranges, CertificateValues, Matches;
    if bundle.domains == [] || bundle.domain != bundle.domains[0] {
      return None;
    }
    var certificates := LoadCerts(bundle.certPem);
    if certificates.None? || |certificates.value| != 1 {
      return None;
    }
    var values := CertificateValues(certificates.value[0]);
    if values.None? {
      return None;
    }
    r := Reorder(values.value, bundle.domains);
  }

  lemma ArrangedValid(ordered: seq<Value>, values: seq<Value>, domains: seq<string>)
    requires Arranges(ordered, values, domains) && ValidValues(values) && domains != []
    ensures ordered != [] && ValidValues(ordered)
  {
    hide ValidValue, Matches;
    forall i | 0 <= i < |ordered| ensures ValidValue(ordered[i]) {
      assert ordered[i] in multiset(ordered);
      assert ordered[i] in values;
    }
  }

  lemma RecoveredShape(bundle: Bundle)
    requires Recover(bundle).Some?
    ensures LeafValues(bundle).Some? && Arranges(Recover(bundle).value, LeafValues(bundle).value, bundle.domains)
    ensures Recover(bundle).value != [] && ValidValues(Recover(bundle).value)
  {
    hide Greedy, Matches, ValidValues, Arranges, CertificateValues;
    GreedyExact(LeafValues(bundle).value, bundle.domains);
    ArrangedValid(Recover(bundle).value, LeafValues(bundle).value, bundle.domains);
  }

  // ---------------------------------------------------------------- signing

  /** What signing a SAN list yields besides the list itself. */
  datatype Signing = Signing(certPem: Bytes, fullchainPem: Bytes, keyPem: Bytes, issuedAt: int, expiresAt: int)

  /** The authority's signature over a SAN list, which may fail. */
  type Signer = seq<GeneralName> -> Option<Signing>

  /** Reading back a signed leaf finds the SAN list that was signed. */
  ghost predicate Faithful(sign: Signer) {
    forall sans :: sign(sans).Some? ==>
      var certificates := LoadCerts(sign(sans).value.certPem);
      certificates.Some? && |certificates.value| == 1 && certificates.value[0].sans == sans
  }

  function NamesOf(values: seq<Value>): seq<GeneralName> {
    seq(|values|, i requires 0 <= i < |values| => NameOfValue(values[i]))
  }

  function Texts(values: seq<Value>): seq<string> {
    seq(|values|, i requires 0 <= i < |values| => ValueText(values[i]))
  }

  /** `_build_bundle`. */
  function BundleFor(values: seq<Value>, signing: Signing): Bundle
    requires values != []
  {
    Bundle(ValueText(values[0]), Texts(values), signing.certPem, signing.fullchainPem, signing.keyPem,
           signing.issuedAt, signing.expiresAt)
  }

  /** What `CertificateAuthority.issue` returns. */
  function Issued(values: seq<Value>, sign: Signer): Option<Bundle> {
    if values == [] || !ValidValues(values) || !CommonNameFits(values) then None
    else
      match sign(NamesOf(values))
      case None => None
      case Some(signing) => Some(BundleFor(values, signing))
  }

  /** `CertificateAuthority.issue` with the SAN loop of `_build_leaf_cert`, whose subject is the
      first text. */
  method Issue(values: seq<Value>, sign: Signer) returns (r: Option<Bundle>)
    ensures r == Issued(values, sign)
  {
    hide ValidValues, ValueText;
    if values == [] || !ValidValues(values) || |ValueText(values[0])| > MAX_COMMON_NAME {
      return None;
    }
    var sans: seq<GeneralName> := [];
    for k := 0 to |values|
      invariant sans == NamesOf(values[..k])
    {
      match values[k] {
        case Ip(address) => sans := sans + [IpName(address)];
        case Dns(name) => sans := sans + [DnsName(name)];
      }
    }
    assert values[..|values|] == values;
    var signing := sign(sans);
    return if signing.None? then None else Some(BundleFor(values, signing.value));
  }

  lemma NamesReadBack(values: seq<Value>)
    requires ValidValues(values)
    ensures SansReadable(NamesOf(values)) && SanValues(NamesOf(values)) == values
  {
    hide ValidDns;
    assert forall i :: 0 <= i < |values| ==> ValueOfName(NamesOf(values)[i]) == Some(values[i]);
  }

  lemma MatchesOwnText(value: Value)
    ensures Matches(value, ValueText(value))
  {
  }

  lemma FirstMatches(values: seq<Value>, domain: string)
    requires values != [] && Matches(values[0], domain)
    ensures FirstMatch(values, domain) == Some(0)
  {
    hide Matches;
  }

  /** Against its own texts, a list of values is recovered as it stands. */
  lemma {:induction false} GreedyOnOwnTexts(values: seq<Value>)
    ensures Greedy(values, Texts(values)) == Some(values)
  {
    hide Greedy, Matches, ValueText;
    if values == [] {
      GreedyEnd(values);
    } else {
      MatchesOwnText(values[0]);
      GreedyStep(values, Texts(values));
      FirstMatches(values, Texts(values)[0]);
      assert Texts(values)[1..] == Texts(values[1..]);
      GreedyOnOwnTexts(values[1..]);
      assert RemoveAt(values, 0) == values[1..];
      assert [values[0]] + values[1..] == values;
    }
  }

  /** What the authority issues for a list of values is recovered as that very list. */
  lemma IssuedRecovers(values: seq<Value>, sign: Signer)
    requires Faithful(sign) && Issued(values, sign).Some?
    ensures Recover(Issued(values, sign).value) == Some(values)
  {
    hide ValidValues, SansReadable, SanValues, Greedy, ValueText;
    NamesReadBack(values);
    GreedyOnOwnTexts(values);
  }

  /** The four files of a bundle for these values with this signature. */
  function IssuedFolder(values: seq<Value>, signing: Signing): Folder
    requires values != []
  {
    Folder(Some(signing.certPem), Some(signing.fullchainPem), Some(signing.keyPem),
           Some(Meta(ValueText(values[0]), Texts(values), signing.issuedAt, signing.expiresAt)))
  }

  lemma IssuedBundle(values: seq<Value>, sign: Signer)
    requires Issued(values, sign).Some?
    ensures values != [] && sign(NamesOf(values)).Some?
    ensures FilesOf(Issued(values, sign).value) == IssuedFolder(values, sign(NamesOf(values)).value)
    ensures Issued(values, sign).value.domain == ValueText(values[0])
  {
    hide ValidValues, CommonNameFits, ValueText, NamesOf, Texts;
  }

  /** The disk after these files were saved under the first text. */
  function WithIssued(disk: Disk, values: seq<Value>, signing: Signing): Disk
    requires values != []
  {
    disk[Component(ValueText(values[0])) := IssuedFolder(values, signing)]
  }

  /** What the authority issues and the file store then saves: the signature's leaf, chain and
      private key each in the file named after it, and the texts of the values as metadata. */
  lemma IssuedFiles(values: seq<Value>, sign: Signer, disk: Disk, signing: Signing, bundle: Bundle, after: Disk)
    requires values != [] && Issued(values, sign) == Some(bundle) && sign(NamesOf(values)) == Some(signing)
    requires SaveStopped(disk, bundle, 4) == (after, Ok(bundle))
    ensures after == WithIssued(disk, values, signing)
  {
    hide ValueText, Component, NamesOf, SaveStopped, Issued, FilesOf, IssuedFolder;
    IssuedBundle(values, sign);
    SavedFiles(disk, bundle);
  }

  // ---------------------------------------------------------------- one sweep

  /** Whoever signs, the authority itself or a client: a bundle for a list of values, or a
      failure. */
  type Issuer = seq<Value> -> Option<Bundle>

  function Direct(sign: Signer): Issuer {
    values => Issued(values, sign)
  }

  /** `_needs_renewal`. */
  predicate NeedsRenewal(bundle: Bundle, now: int, days: int) {
    bundle.expiresAt <= now + days * 86_400_000_000
  }

  /** The replacement of one bundle, if it is due, its identifiers can be recovered and the
      issuer issues. */
  function Replacement(bundle: Bundle, now: int, days: int, issue: Issuer): Option<Bundle> {
    if !NeedsRenewal(bundle, now, days) then None
    else
      match Recover(bundle)
      case None => None
      case Some(values) => issue(values)
  }

  type Store = map<string, Bundle>

  /** The store and the list of renewed bundles after a sweep over these bundles. */
  function Sweep(certs: Store, bundles: seq<Bundle>, now: int, days: int, issue: nat -> Issuer): (Store, seq<Bundle>) {
    if bundles == [] then (certs, [])
    else
      var k := |bundles| - 1;
      var (before, renewed) := Sweep(certs, bundles[..k], now, days, issue);
      match Replacement(bundles[k], now, days, issue(k))
      case None => (before, renewed)
      case Some(bundle) => (before[bundle.domain := bundle], renewed + [bundle])
  }

  class RenewalManager {
    const store: MemoryStore
    const daysBeforeExpiry: int

    constructor (store: MemoryStore, daysBeforeExpiry: int)
      ensures this.store == store && this.daysBeforeExpiry == daysBeforeExpiry
    {
      this.store, this.daysBeforeExpiry := store, daysBeforeExpiry;
    }

    /** `check_and_renew`; `issue(k)` is how the authority or the client takes the request for
        the k-th stored bundle. A bundle that cannot be renewed is passed over. */
    method CheckAndRenew(now: int, issue: nat -> Issuer) returns (renewed: seq<Bundle>, ghost snapshot: seq<Bundle>)
      requires store.Valid()
      modifies store
      ensures store.Valid()
      ensures forall b :: b in snapshot <==> b.domain in old(store.certs) && old(store.certs)[b.domain] == b
      ensures (store.certs, renewed) == Sweep(old(store.certs), snapshot, now, daysBeforeExpiry, issue)
    {
      hide Recover, Arranges;
      var bundles := store.ListCerts();
      snapshot := bundles;
      renewed := [];
      ghost var was := store.certs;
      assert bundles[..0] == [];
      for k := 0 to |bundles|
        invariant store.Valid()
        invariant (store.certs, renewed) == Sweep(was, bundles[..k], now, daysBeforeExpiry, issue)
      {
        var bundle := bundles[k];
        assert bundles[..k + 1][..k] == bundles[..k];
        if NeedsRenewal(bundle, now, daysBeforeExpiry) {
          var values := RecoverIdentifiers(bundle);
          if values.Some? {
            var next := issue(k)(values.value);
            if next.Some? {
              var saved := store.SaveCert(next.value);
              renewed := renewed + [next.value];
            }
          }
        }
      }
      assert bundles[..|bundles|] == bundles;
    }
  }

  // ---------------------------------------------------------------- what a sweep does to the store

  /** The k-th bundle of the sweep is replaced by one named so. */
  predicate Names(bundles: seq<Bundle>, now: int, days: int, issue: nat -> Issuer, k: nat, name: string) {
    && k < |bundles| && Replacement(bundles[k], now, days, issue(k)).Some?
    && Replacement(bundles[k], now, days, issue(k)).value.domain == name
  }

  /** The last bundle of the sweep that is replaced by one named so. */
  function LastNamed(bundles: seq<Bundle>, now: int, days: int, issue: nat -> Issuer, name: string): (last: Option<nat>)
    ensures last.Some? ==> last.value < |bundles|
  {
    if bundles == [] then None
    else if Names(bundles, now, days, issue, |bundles| - 1, name) then Some(|bundles| - 1)
    else LastNamed(bundles[..|bundles| - 1], now, days, issue, name)
  }

  lemma {:induction false} LastNamedIs(bundles: seq<Bundle>, now: int, days: int, issue: nat -> Issuer, name: string)
    ensures var last := LastNamed(bundles, now, days, issue, name);
            && (last.Some? ==> Names(bundles, now, days, issue, last.value, name))
            && (last.Some? ==> forall k: nat :: Names(bundles, now, days, issue, k, name) ==> k <= last.value)
            && (last.None? ==> forall k: nat :: !Names(bundles, now, days, issue, k, name))
  {
    hide Names;
    NamesWithin(bundles, now, days, issue, name);
    if bundles != [] && !Names(bundles, now, days, issue, |bundles| - 1, name) {
      NamesFront(bundles, now, days, issue, name);
      LastNamedIs(bundles[..|bundles| - 1], now, days, issue, name);
    }
  }

  lemma NamesWithin(bundles: seq<Bundle>, now: int, days: int, issue: nat -> Issuer, name: string)
    ensures forall k: nat :: Names(bundles, now, days, issue, k, name) ==> k < |bundles|
  {
    hide Replacement;
  }

  lemma NamesFront(bundles: seq<Bundle>, now: int, days: int, issue: nat -> Issuer, name: string)
    requires bundles != [] && !Names(bundles, now, days, issue, |bundles| - 1, name)
    ensures forall k: nat :: Names(bundles, now, days, issue, k, name) <==>
                             Names(bundles[..|bundles| - 1], now, days, issue, k, name)
  {
    hide Replacement;
    var n := |bundles| - 1;
    forall k: nat
      ensures Names(bundles, now, days, issue, k, name) <==> Names(bundles[..n], now, days, issue, k, name)
    {
      if k < n { assert bundles[..n][k] == bundles[k]; }
    }
  }

  function Stored(certs: Store, name: string): Option<Bundle> {
    if name in certs then Some(certs[name]) else None
  }

  /** For every store: under a name the sweep leaves the last replacement that has this name,
      and without one whatever was there. */
  lemma {:induction false} SweepExact(certs: Store, bundles: seq<Bundle>, now: int, days: int, issue: nat -> Issuer,
                                      name: string)
    ensures Stored(Sweep(certs, bundles, now, days, issue).0, name) ==
            match LastNamed(bundles, now, days, issue, name)
            case Some(k) => Replacement(bundles[k], now, days, issue(k))
            case None => Stored(certs, name)
  {
    hide Replacement;
    if bundles != [] {
      var n := |bundles| - 1;
      SweepExact(certs, bundles[..n], now, days, issue, name);
      var last := LastNamed(bundles[..n], now, days, issue, name);
      if last.Some? { assert bundles[..n][last.value] == bundles[last.value]; }
    }
  }

  /** It can be renewed: its identifiers are recovered and the first fits a common name. */
  predicate Renewable(bundle: Bundle) {
    Recover(bundle).Some? && CommonNameFits(Recover(bundle).value)
  }

  /** The name its replacement gets. */
  function NextName(bundle: Bundle): string
    requires Renewable(bundle)
  {
    RecoveredShape(bundle);
    ValueText(Recover(bundle).value[0])
  }

  /** An issued bundle has the texts of the values, is named after the first, which fits a
      common name, and yields the requested values again. */
  ghost predicate Recovers(issue: Issuer) {
    forall values :: issue(values).Some? ==>
      && values != [] && CommonNameFits(values)
      && issue(values).value.domain == ValueText(values[0]) && issue(values).value.domains == Texts(values)
      && Recover(issue(values).value) == Some(values)
  }

  /** Every request an issuer can take is granted. */
  ghost predicate Grants(issue: Issuer) {
    forall values :: values != [] && ValidValues(values) && CommonNameFits(values) ==> issue(values).Some?
  }

  /** Direct signing by the authority is such an issuer, and refuses no request if its
      signature never fails. */
  lemma DirectRecovers(sign: Signer)
    requires Faithful(sign)
    ensures Recovers(Direct(sign))
    ensures (forall sans :: sign(sans).Some?) ==> Grants(Direct(sign))
  {
    hide Recover, ValueText, ValidValues, CommonNameFits, NamesOf, Faithful;
    forall values | Direct(sign)(values).Some?
      ensures values != [] && CommonNameFits(values)
      ensures Direct(sign)(values).value.domain == ValueText(values[0])
      ensures Direct(sign)(values).value.domains == Texts(values)
      ensures Recover(Direct(sign)(values).value) == Some(values)
    {
      IssuedRecovers(values, sign);
    }
  }

  lemma ReplacementMeans(bundle: Bundle, now: int, days: int, issue: Issuer)
    requires Recovers(issue) && Replacement(bundle, now, days, issue).Some?
    ensures var next := Replacement(bundle, now, days, issue).value;
            && NeedsRenewal(bundle, now, days) && Renewable(bundle)
            && next.domain == NextName(bundle) && next.domains == Texts(Recover(bundle).value)
            && Recover(next) == Recover(bundle)
  {
    hide Recover, ValueText, CommonNameFits;
  }

  lemma ReplacementComes(bundle: Bundle, now: int, days: int, issue: Issuer)
    requires Grants(issue) && NeedsRenewal(bundle, now, days) && Renewable(bundle)
    ensures Replacement(bundle, now, days, issue).Some?
  {
    hide Recover, ValidValues, CommonNameFits;
    RecoveredShape(bundle);
  }

  // ---------------------------------------------------------------- a fixed point on identity

  /** Every bundle is stored under its name. */
  predicate Filed(certs: Store) {
    forall k :: k in certs ==> certs[k].domain == k
  }

  /** The listed domains are the texts of the values the leaf yields. */
  predicate Canonical(bundle: Bundle) {
    Recover(bundle).Some? && bundle.domains == Texts(Recover(bundle).value)
  }

  /** The same names, each standing for the same typed values in the same order, or for none
      if it did before; and listed domains that were the texts of these values are the same. */
  predicate SameIdentities(before: Store, after: Store) {
    && after.Keys == before.Keys
    && forall k :: k in before ==>
         Recover(after[k]) == Recover(before[k]) && (Canonical(before[k]) ==> after[k].domains == before[k].domains)
  }

  /** A bundle that can be renewed has its next name, and that name is stored with the same
      values: it is the bundle's own name, or that of a bundle for the same values. */
  predicate Anchored(certs: Store) {
    forall k :: k in certs && Renewable(certs[k]) ==>
      NextName(certs[k]) in certs && Recover(certs[NextName(certs[k])]) == Recover(certs[k])
  }

  lemma {:induction false} SweepKeepsIdentities(certs: Store, bundles: seq<Bundle>, now: int, days: int,
                                                issue: nat -> Issuer)
    requires Filed(certs) && Anchored(certs) && forall k :: Recovers(issue(k))
    requires forall b :: b in bundles ==> b.domain in certs && certs[b.domain] == b
    ensures Filed(Sweep(certs, bundles, now, days, issue).0)
    ensures SameIdentities(certs, Sweep(certs, bundles, now, days, issue).0)
  {
    hide Recover, Renewable, NextName, Replacement, Recovers;
    if bundles != [] {
      var k := |bundles| - 1;
      SweepKeepsIdentities(certs, bundles[..k], now, days, issue);
      if Replacement(bundles[k], now, days, issue(k)).Some? {
        assert bundles[k] in bundles;
        ReplacementMeans(bundles[k], now, days, issue(k));
      }
    }
  }

  lemma AnchoredSame(before: Store, after: Store)
    requires SameIdentities(before, after)
    ensures Anchored(before) ==> Anchored(after)
  {
    hide Recover, ValueText, CommonNameFits;
  }

  /** One sweep of a run: when it runs, in which order it meets the bundles, and how the
      issuer answers. */
  datatype Round = Round(order: seq<string>, now: int, days: int, issue: nat -> Issuer)

  ghost predicate RoundsRecover(rounds: seq<Round>) {
    forall i, k :: 0 <= i < |rounds| ==> Recovers(rounds[i].issue(k))
  }

  function Snapshot(certs: Store, order: seq<string>): seq<Bundle> {
    if order == [] then []
    else
      var rest, last := Snapshot(certs, order[..|order| - 1]), order[|order| - 1];
      if last in certs then rest + [certs[last]] else rest
  }

  function Sweeps(certs: Store, rounds: seq<Round>): Store {
    if rounds == [] then certs
    else
      var before, r := Sweeps(certs, rounds[..|rounds| - 1]), rounds[|rounds| - 1];
      Sweep(before, Snapshot(before, r.order), r.now, r.days, r.issue).0
  }

  lemma {:induction false} SnapshotStored(certs: Store, order: seq<string>)
    requires Filed(certs)
    ensures forall b :: b in Snapshot(certs, order) ==> b.domain in certs && certs[b.domain] == b
  {
    if order != [] { SnapshotStored(certs, order[..|order| - 1]); }
  }

  /** From an anchored store, renewal is a fixed point on identity: after any number of sweeps,
      whatever fails in them and whatever cannot be renewed, the names are the same and each
      still yields the same typed values in the same order. */
  lemma {:induction false} RenewalFixedPoint(certs: Store, rounds: seq<Round>)
    requires Filed(certs) && Anchored(certs) && RoundsRecover(rounds)
    ensures Filed(Sweeps(certs, rounds)) && SameIdentities(certs, Sweeps(certs, rounds))
  {
    hide Recover, Recovers, Sweep, Anchored;
    if rounds != [] {
      var front, r := rounds[..|rounds| - 1], rounds[|rounds| - 1];
      RenewalFixedPoint(certs, front);
      var before := Sweeps(certs, front);
      AnchoredSame(certs, before);
      SnapshotStored(before, r.order);
      SweepKeepsIdentities(before, Snapshot(before, r.order), r.now, r.days, r.issue);
    }
  }

  /** Renewing one bundle that is not anchored changes an identity: its next name appears, or
      that of another bundle is taken over. */
  lemma DriftingRound(certs: Store, issue: Issuer, k: string)
    requires Recovers(issue) && Grants(issue) && k in certs && Renewable(certs[k])
    requires !(NextName(certs[k]) in certs && Recover(certs[NextName(certs[k])]) == Recover(certs[k]))
    ensures var round := Round([k], certs[k].expiresAt, 0, _ => issue);
            RoundsRecover([round]) && !SameIdentities(certs, Sweeps(certs, [round]))
  {
    hide Recover, Renewable, NextName, Replacement, Recovers, Grants, Sweep;
    var round := Round([k], certs[k].expiresAt, 0, _ => issue);
    SnapshotOne(certs, k);
    assert [round][..0] == [];
    ReplacementComes(certs[k], round.now, 0, issue);
    ReplacementMeans(certs[k], round.now, 0, issue);
    SweepOne(certs, certs[k], round.now, 0, _ => issue);
    assert round.issue(0) == issue;
    assert Sweeps(certs, []) == certs;
    assert Sweeps(certs, [round]) == Sweep(certs, [certs[k]], round.now, 0, round.issue).0;
  }

  lemma SnapshotOne(certs: Store, k: string)
    requires k in certs
    ensures Snapshot(certs, [k]) == [certs[k]]
  {
    assert [k][..0] == [];
  }

  /** Identities survive every run of sweeps exactly when the store is anchored. */
  lemma IdentitiesSurvive(certs: Store, issue: Issuer)
    requires Filed(certs) && Recovers(issue) && Grants(issue)
    ensures (forall rounds :: RoundsRecover(rounds) ==> SameIdentities(certs, Sweeps(certs, rounds))) <==>
            Anchored(certs)
  {
    hide Recover, Renewable, NextName, Recovers, Grants, Sweeps, RoundsRecover, SameIdentities;
    if Anchored(certs) {
      forall rounds | RoundsRecover(rounds) ensures SameIdentities(certs, Sweeps(certs, rounds)) {
        RenewalFixedPoint(certs, rounds);
      }
    } else {
      var k :| k in certs && Renewable(certs[k])
               && !(NextName(certs[k]) in certs && Recover(certs[NextName(certs[k])]) == Recover(certs[k]));
      DriftingRound(certs, issue, k);
    }
  }

  // ---------------------------------------------------------------- what stays due

  /** What an issuer issues outlasts the renewal window. */
  ghost predicate IssuesAhead(issue: Issuer, now: int, days: int) {
    forall values :: issue(values).Some? ==> !NeedsRenewal(issue(values).value, now, days)
  }

  /** The next name of some bundle that is due and can be renewed. */
  predicate Refreshed(certs: Store, now: int, days: int, name: string) {
    exists k :: k in certs && NeedsRenewal(certs[k], now, days) && Renewable(certs[k]) && NextName(certs[k]) == name
  }

  /** After a sweep over the whole store by an issuer that grants every request with lasting
      certificates, exactly those bundles are still due that were due and are not the next
      name of a bundle renewed: unrecoverable bundles, and bundles renewed under another name. */
  lemma SweepClears(certs: Store, bundles: seq<Bundle>, now: int, days: int, issue: nat -> Issuer, name: string)
    requires forall i :: Recovers(issue(i)) && Grants(issue(i)) && IssuesAhead(issue(i), now, days)
    requires Filed(certs) && forall b :: b in bundles <==> b.domain in certs && certs[b.domain] == b
    requires name in certs
    ensures var after := Sweep(certs, bundles, now, days, issue).0;
            && name in after
            && (NeedsRenewal(after[name], now, days) <==>
                  NeedsRenewal(certs[name], now, days) && !Refreshed(certs, now, days, name))
  {
    hide Recover, Renewable, NextName, Replacement, Recovers, Grants, IssuesAhead, Sweep, NeedsRenewal, Refreshed,
      LastNamed;
    SweepExact(certs, bundles, now, days, issue, name);
    NamesRefreshed(certs, bundles, now, days, issue, name);
    LastNamedIs(bundles, now, days, issue, name);
    var last := LastNamed(bundles, now, days, issue, name);
    if last.Some? { ReplacedAhead(bundles[last.value], now, days, issue(last.value)); }
  }

  lemma ReplacedAhead(bundle: Bundle, now: int, days: int, issue: Issuer)
    requires IssuesAhead(issue, now, days) && Replacement(bundle, now, days, issue).Some?
    ensures !NeedsRenewal(Replacement(bundle, now, days, issue).value, now, days)
  {
    hide Recover;
  }

  lemma NamesRefreshed(certs: Store, bundles: seq<Bundle>, now: int, days: int, issue: nat -> Issuer, name: string)
    requires forall i :: Recovers(issue(i)) && Grants(issue(i))
    requires Filed(certs) && forall b :: b in bundles <==> b.domain in certs && certs[b.domain] == b
    ensures Refreshed(certs, now, days, name) <==> exists k :: Names(bundles, now, days, issue, k, name)
  {
    hide Recover, Renewable, NextName, Replacement, Recovers, Grants, NeedsRenewal;
    if k: nat :| Names(bundles, now, days, issue, k, name) {
      assert bundles[k] in bundles;
      ReplacementMeans(bundles[k], now, days, issue(k));
      assert certs[bundles[k].domain] == bundles[k];
    }
    if Refreshed(certs, now, days, name) {
      var d :| d in certs && NeedsRenewal(certs[d], now, days) && Renewable(certs[d]) && NextName(certs[d]) == name;
      assert certs[d] in bundles;
      var k :| 0 <= k < |bundles| && bundles[k] == certs[d];
      ReplacementComes(bundles[k], now, days, issue(k));
      ReplacementMeans(bundles[k], now, days, issue(k));
      assert Names(bundles, now, days, issue, k, name);
    }
  }

  // ---------------------------------------------------------------- renewing under another name

  /** Renewing one bundle stores the new one under the text of the first recovered value,
      whatever was stored there. That is the old name exactly when the value is spelled like
      it; otherwise the names differ in letter case alone and the old bundle stays, still due. */
  lemma NameKept(certs: Store, bundle: Bundle, now: int, days: int, issue: nat -> Issuer, next: Bundle)
    requires bundle.domain in certs && certs[bundle.domain] == bundle && Recovers(issue(0))
    requires Replacement(bundle, now, days, issue(0)) == Some(next)
    ensures Sweep(certs, [bundle], now, days, issue).0 == certs[next.domain := next]
    ensures Renewable(bundle) && next.domain == NextName(bundle) && Lower(next.domain) == Lower(bundle.domain)
    ensures next.domain != bundle.domain ==>
              && Sweep(certs, [bundle], now, days, issue).0[bundle.domain] == bundle
              && NeedsRenewal(bundle, now, days)
  {
    hide Sweep, Replacement, Recover, Lower, Renewable, NextName, Recovers;
    SweepOne(certs, bundle, now, days, issue);
    ReplacementMeans(bundle, now, days, issue(0));
    NextNameLike(bundle);
  }

  lemma SweepOne(certs: Store, bundle: Bundle, now: int, days: int, issue: nat -> Issuer)
    requires Replacement(bundle, now, days, issue(0)).Some?
    ensures var next := Replacement(bundle, now, days, issue(0)).value;
            Sweep(certs, [bundle], now, days, issue) == (certs[next.domain := next], [next])
  {
    hide Replacement;
    assert [bundle][..0] == [];
    var next := Replacement(bundle, now, days, issue(0)).value;
    assert Sweep(certs, [], now, days, issue) == (certs, []);
    assert [] + [next] == [next];
  }

  lemma NextNameLike(bundle: Bundle)
    requires Renewable(bundle)
    ensures Lower(NextName(bundle)) == Lower(bundle.domain)
  {
    hide Recover, LeafValues, ValueText, Lower, Matches, ValidValues, CommonNameFits;
    RecoveredShape(bundle);
    LeafPrimary(bundle);
    MatchesText(Recover(bundle).value[0], bundle.domains[0]);
  }

  lemma LeafPrimary(bundle: Bundle)
    requires LeafValues(bundle).Some?
    ensures bundle.domains != [] && bundle.domain == bundle.domains[0]
  {
  }

  lemma MatchesText(value: Value, domain: string)
    requires Matches(value, domain)
    ensures Lower(ValueText(value)) == Lower(domain)
  {
  }

  /** The bundle the authority's signature makes, with another expiry. */
  function SignedUntil(values: seq<Value>, sign: Signer, expiresAt: int): Bundle
    requires values != [] && sign(NamesOf(values)).Some?
  {
    BundleFor(values, sign(NamesOf(values)).value).(expiresAt := expiresAt)
  }

  /** What a client keeps that asked for `A` and was given a leaf for `a`, now due. */
  function UpperBundle(sign: Signer): Bundle
    requires sign(NamesOf([Dns("a")])).Some?
  {
    SignedUntil([Dns("a")], sign, 0).(domain := "A", domains := ["A"])
  }

  /** Beside it a bundle for `a` and `b`, not due. */
  function OverwrittenStore(sign: Signer): Store
    requires forall sans :: sign(sans).Some?
  {
    map["A" := UpperBundle(sign), "a" := SignedUntil([Dns("a"), Dns("b")], sign, 1)]
  }

  /** One sweep, and the bundle that was not due is gone: renewing `A` overwrites it, and no
      stored bundle has `b` any more. */
  lemma OverwrittenBySweep(sign: Signer)
    requires Faithful(sign) && forall sans :: sign(sans).Some?
    ensures var certs := OverwrittenStore(sign);
            var after := Sweep(certs, [certs["A"], certs["a"]], 0, 0, _ => Direct(sign)).0;
            && Filed(certs) && !NeedsRenewal(certs["a"], 0, 0)
            && Recover(certs["a"]) == Some([Dns("a"), Dns("b")])
            && after.Keys == {"A", "a"}
            && Recover(after["a"]) == Some([Dns("a")]) && Recover(after["A"]) == Some([Dns("a")])
  {
    hide Recover, Faithful, Sweep, Direct, SignedUntil, UpperBundle, Renewable, NextName, Recovers, Grants,
      NeedsRenewal, ValidDns, Lower;
    var certs := OverwrittenStore(sign);
    DirectRecovers(sign);
    UpperRecovers(sign);
    PairRecovers(sign);
    LettersDiffer();
    Overwritten(certs, certs["A"], certs["a"], Direct(sign));
  }

  /** A bundle that is due and whose next name is that of another one takes its place. */
  lemma Overwritten(certs: Store, due: Bundle, other: Bundle, issue: Issuer)
    requires Recovers(issue) && Grants(issue) && NeedsRenewal(due, 0, 0) && !NeedsRenewal(other, 0, 0)
    requires Renewable(due) && NextName(due) == other.domain != due.domain
    requires certs.Keys == {due.domain, other.domain} && certs[due.domain] == due && certs[other.domain] == other
    ensures var after := Sweep(certs, [due, other], 0, 0, _ => issue).0;
            && after.Keys == certs.Keys && after[due.domain] == due && Recover(after[other.domain]) == Recover(due)
  {
    hide Recover, Renewable, NextName, Replacement, Recovers, Grants, Sweep, NeedsRenewal;
    var all: nat -> Issuer := _ => issue;
    ReplacementComes(due, 0, 0, issue);
    ReplacementMeans(due, 0, 0, issue);
    assert all(0) == issue;
    SweepOne(certs, due, 0, 0, all);
    SweepNotDue(certs, due, other, 0, 0, all);
  }

  lemma LettersDiffer()
    ensures "A" != "a" && Lower("A") == Lower("a") && ValidDns("a", true) && ValidDns("b", true)
  {
    hide ValidDns;
    assert "A"[0] == 'A' && "a"[0] == 'a';
    assert Lower("A")[0] == 'a' && Lower("a")[0] == 'a';
    LetterValid('a');
    LetterValid('b');
  }

  lemma LetterValid(c: char)
    requires 'a' <= c <= 'z'
    ensures ValidDns([c], true)
  {
    hide Split;
    assert |"xn--"| == 4 && |"*."| == 2;
    SplitNoSep([c], '.');
  }

  lemma UpperRecovers(sign: Signer)
    requires Faithful(sign) && sign(NamesOf([Dns("a")])).Some?
    ensures var bundle := UpperBundle(sign);
            && bundle.domain == "A" && NeedsRenewal(bundle, 0, 0)
            && Recover(bundle) == Some([Dns("a")]) && Renewable(bundle) && NextName(bundle) == "a"
  {
    hide Greedy, ValidDns, Lower, Matches, SansReadable, SanValues, Faithful;
    var values := [Dns("a")];
    LettersDiffer();
    SignedLeaf(values, sign, 0);
    GreedyUpper();
  }

  /** The leaf read back from a signed bundle. */
  lemma SignedLeaf(values: seq<Value>, sign: Signer, expiresAt: int)
    requires Faithful(sign) && sign(NamesOf(values)).Some? && values != [] && ValidValues(values)
    ensures var certificates := LoadCerts(SignedUntil(values, sign, expiresAt).certPem);
            certificates.Some? && |certificates.value| == 1 && CertificateValues(certificates.value[0]) == Some(values)
  {
    hide SansReadable, SanValues, ValidValues, ValueText;
    NamesReadBack(values);
  }

  lemma GreedyUpper()
    ensures Greedy([Dns("a")], ["A"]) == Some([Dns("a")])
  {
    hide ValidDns, Lower;
    LettersDiffer();
    GreedyOne(Dns("a"), "A");
  }

  lemma GreedyOne(value: Value, domain: string)
    requires Matches(value, domain)
    ensures Greedy([value], [domain]) == Some([value])
  {
    hide Greedy, Matches;
    GreedyStep([value], [domain]);
    FirstMatches([value], domain);
    assert RemoveAt([value], 0) == [] && [domain][1..] == [];
    GreedyEnd([]);
    assert [value] + [] == [value];
  }

  lemma PairRecovers(sign: Signer)
    requires Faithful(sign) && sign(NamesOf([Dns("a"), Dns("b")])).Some?
    ensures var bundle := SignedUntil([Dns("a"), Dns("b")], sign, 1);
            && bundle.domain == "a" && !NeedsRenewal(bundle, 0, 0)
            && Recover(bundle) == Some([Dns("a"), Dns("b")])
  {
    hide Greedy, ValidDns, Lower, Matches, SansReadable, SanValues, Faithful, CertificateValues;
    LettersDiffer();
    SignedLeaf([Dns("a"), Dns("b")], sign, 1);
    GreedyOnOwnTexts([Dns("a"), Dns("b")]);
  }

  lemma SweepNotDue(certs: Store, first: Bundle, second: Bundle, now: int, days: int, issue: nat -> Issuer)
    requires !NeedsRenewal(second, now, days)
    ensures Sweep(certs, [first, second], now, days, issue) == Sweep(certs, [first], now, days, issue)
  {
    hide Recover, NeedsRenewal;
    assert [first, second][..1] == [first];
  }

  /** Recovery permutes the leaf's values, so whichever authority issued it, what is renewed
      is the same set of typed identifiers: no IP becomes a DNS name. */
  lemma RecoveredKeys(bundle: Bundle)
    requires Recover(bundle).Some?
    ensures LeafValues(bundle).Some? && KeysOfValues(Recover(bundle).value) == KeysOfValues(LeafValues(bundle).value)
    ensures |Recover(bundle).value| == |bundle.domains|
    ensures forall i :: 0 <= i < |bundle.domains| ==>
              KeyOfValue(Recover(bundle).value[i]).text == Lower(bundle.domains[i])
  {
    hide Recover, LeafValues, KeyOfValue, Matches, Lower;
    RecoveredShape(bundle);
    var ordered, values := Recover(bundle).value, LeafValues(bundle).value;
    SameMembersSameKeys(ordered, values);
    SameMembersSameKeys(values, ordered);
    forall i | 0 <= i < |bundle.domains| ensures KeyOfValue(ordered[i]).text == Lower(bundle.domains[i]) {
      MatchesKeyText(ordered[i], bundle.domains[i]);
    }
  }

  lemma MatchesKeyText(value: Value, domain: string)
    requires Matches(value, domain)
    ensures KeyOfValue(value).text == Lower(domain)
  {
    hide AddressText;
    if value.Ip? { AddressTextShape(value.address); }
  }

  lemma SameMembersSameKeys(a: seq<Value>, b: seq<Value>)
    requires multiset(a) == multiset(b)
    ensures KeysOfValues(a) <= KeysOfValues(b)
  {
    hide KeyOfValue;
    forall key | key in KeysOfValues(a) ensures key in KeysOfValues(b) {
      var i :| 0 <= i < |a| && KeyOfValue(a[i]) == key;
      assert a[i] in multiset(a);
      assert a[i] in b;
    }
  }
}
