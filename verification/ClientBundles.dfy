/** The bundle that `issue` saves, and when its identifiers can be recovered from it for a
    renewal. */
module ClientBundles {
  import opened Wrappers
  import opened Text
  import opened Identifiers
  import opened CsrBinding
  import opened Recovery
  import opened CertStore
  import opened Acme
  import opened AcmeSafety
  import opened Renewal
  import opened IssueFlow
  import opened IssueSafety
  import opened EndToEnd

  /** How a leaf and its times are written into a bundle. */
  type Writer = Certificate -> Signing

  /** Reading back a written leaf finds that leaf. */
  ghost predicate ReadsBack(write: Writer) {
    forall leaf :: LoadCerts(write(leaf).certPem) == Some([leaf])
  }

  /** The bundle for an accepted leaf: the requested texts, and the leaf. */
  function Saved(values: seq<Value>, leaf: Certificate, write: Writer): Bundle
    requires values != []
  {
    BundleFor(values, write(leaf))
  }

  // ---------------------------------------------------------------- when it can be recovered

  function LowerTexts(values: seq<Value>): seq<string> {
    seq(|values|, i requires 0 <= i < |values| => Lower(ValueText(values[i])))
  }

  /** How often each text occurs, letter case aside. */
  function TextCounts(values: seq<Value>): multiset<string> {
    multiset(LowerTexts(values))
  }

  lemma CountsWithout(values: seq<Value>, k: nat)
    requires k < |values|
    ensures TextCounts(RemoveAt(values, k)) == TextCounts(values) - multiset{Lower(ValueText(values[k]))}
    ensures Lower(ValueText(values[k])) in TextCounts(values)
  {
    hide ValueText, Lower;
    var texts := LowerTexts(values);
    assert LowerTexts(RemoveAt(values, k)) == RemoveAt(texts, k);
    RemoveAtMultiset(texts, k);
    assert texts[k] in texts;
  }

  lemma CountedSomewhere(values: seq<Value>, text: string) returns (i: nat)
    requires text in TextCounts(values)
    ensures i < |values| && Lower(ValueText(values[i])) == text
  {
    hide ValueText, Lower;
    assert text in LowerTexts(values);
    i :| 0 <= i < |values| && LowerTexts(values)[i] == text;
  }

  /** A value matches the text of another exactly when their texts agree, letter case aside. */
  lemma SameTextMatches(u: Value, v: Value)
    requires ValidValue(u) && ValidValue(v)
    ensures Matches(u, ValueText(v)) <==> Lower(ValueText(u)) == Lower(ValueText(v))
  {
    hide ValidDns, AddressText, Lower;
    if Matches(u, ValueText(v)) { MatchesText(u, ValueText(v)); }
    if u.Ip? && Lower(ValueText(u)) == Lower(ValueText(v)) {
      AddressTextShape(u.address);
      LowerOfLower(AddressText(u.address));
      if v.Dns? {
        DnsAgainstAddress(v.name, u.address, AddressText(u.address), v.name);
      } else {
        AddressTextShape(v.address);
        LowerOfLower(AddressText(v.address));
      }
    }
  }

  /** Values can be put in the order of other values' texts exactly when the texts occur
      equally often. */
  lemma {:induction false} GreedyByCounts(found: seq<Value>, values: seq<Value>)
    requires ValidValues(found) && ValidValues(values)
    ensures Greedy(found, Texts(values)).Some? <==> TextCounts(found) == TextCounts(values)
    decreases |values|
  {
    hide Greedy, Matches, ValidValue, ValueText, Lower, TextCounts, ValidValues, RemoveAt;
    if values == [] {
      GreedyEnd(found);
      NothingCounted(found);
      NothingCounted(values);
    } else {
      var first := ValueText(values[0]);
      GreedyStep(found, Texts(values));
      assert Texts(values)[1..] == Texts(values[1..]);
      RemoveFirst(values);
      CountsWithout(values, 0);
      var k := FirstMatch(found, first);
      ElementValid(values, 0);
      RemoveAtValid(values, 0);
      if k.Some? {
        ElementValid(found, k.value);
        SameTextMatches(found[k.value], values[0]);
        RemoveAtValid(found, k.value);
        CountsWithout(found, k.value);
        GreedyByCounts(RemoveAt(found, k.value), values[1..]);
        TakenFromBoth(TextCounts(found), TextCounts(values), Lower(first));
      } else if Lower(first) in TextCounts(found) {
        var i := CountedSomewhere(found, Lower(first));
        ElementValid(found, i);
        SameTextMatches(found[i], values[0]);
      }
    }
  }

  lemma RemoveFirst(values: seq<Value>)
    requires values != []
    ensures RemoveAt(values, 0) == values[1..]
  {
  }

  lemma NothingCounted(values: seq<Value>)
    ensures TextCounts(values) == multiset{} <==> values == []
  {
    hide ValueText, Lower;
    if values != [] { assert LowerTexts(values)[0] in TextCounts(values); }
  }

  lemma TakenFromBoth(a: multiset<string>, b: multiset<string>, text: string)
    requires text in a && text in b
    ensures a - multiset{text} == b - multiset{text} <==> a == b
  {
    if a - multiset{text} == b - multiset{text} {
      assert a == a - multiset{text} + multiset{text};
      assert b == b - multiset{text} + multiset{text};
    }
  }

  /** The bundle `issue` saves can be recovered, and so renewed, exactly when the accepted leaf
      has every requested text as often as it was requested, letter case aside. The acceptance
      itself compares sets only. */
  lemma SavedRecovers(chain: Option<seq<Certificate>>, values: seq<Value>, key: PublicKey, write: Writer)
    requires values != [] && ValidValues(values) && ReadsBack(write) && AcceptLeaf(chain, values, key).Some?
    ensures var leaf := AcceptLeaf(chain, values, key).value;
            Recover(Saved(values, leaf, write)).Some? <==> TextCounts(SanValues(leaf.sans)) == TextCounts(values)
  {
    hide Greedy, ValidValues, TextCounts, SansReadable, SanValues, KeysOfValues, ValueText;
    var leaf := AcceptLeaf(chain, values, key).value;
    SavedLeaf(values, leaf, write);
    GreedyByCounts(SanValues(leaf.sans), values);
  }

  lemma SavedLeaf(values: seq<Value>, leaf: Certificate, write: Writer)
    requires values != [] && ReadsBack(write) && CertificateValues(leaf).Some?
    ensures CertificateValues(leaf) == Some(SanValues(leaf.sans)) && ValidValues(SanValues(leaf.sans))
    ensures Recover(Saved(values, leaf, write)) == Greedy(SanValues(leaf.sans), Texts(values))
  {
    hide Greedy, ValidValues, SansReadable, SanValues, ValueText;
  }

  /** Asked for `a` twice and given a leaf that names it once, `issue` accepts and saves a
      bundle that no sweep ever renews. */
  lemma DuplicateNeverRenewed(key: PublicKey, write: Writer, now: int, days: int, issue: Issuer)
    requires ReadsBack(write)
    ensures var values, leaf := [Dns("a"), Dns("a")], Certificate(NamesOf([Dns("a")]), key);
            && AcceptLeaf(Some([leaf]), values, key) == Some(leaf)
            && Replacement(Saved(values, leaf, write), now, days, issue).None?
  {
    hide Greedy, ValidDns, TextCounts, ValueText, Lower;
    var values, leaf := [Dns("a"), Dns("a")], Certificate(NamesOf([Dns("a")]), key);
    LettersDiffer();
    NamesReadBack([Dns("a")]);
    OneKeyTwice(Dns("a"));
    SavedRecovers(Some([leaf]), values, key, write);
    CountedTwice(Dns("a"));
  }

  lemma OneKeyTwice(value: Value)
    ensures KeysOfValues([value, value]) == KeysOfValues([value])
  {
    hide KeyOfValue;
    assert [value, value][0] == [value][0];
  }

  lemma CountedTwice(value: Value)
    ensures TextCounts([value]) != TextCounts([value, value])
  {
    hide ValueText, Lower;
    assert |TextCounts([value])| == 1 && |TextCounts([value, value])| == 2;
  }

  // ---------------------------------------------------------------- issuing against the responder

  /** Renewing through a client of the responder. */
  function ResponderIssuer(scene: Scene, patience: Patience, setup: Setup, accountUrl: Option<string>, write: Writer)
    : Issuer
  {
    values =>
      if values == [] then None
      else
        match IssueRun(Env(ResponderWorld(scene), patience), [], setup, accountUrl, values).leaf
        case None => None
        case Some(leaf) => Some(Saved(values, leaf, write))
  }

  /** Only challenge types the responder knows are configured. */
  predicate KnownKinds(setup: Setup) {
    && !setup.challengeType.OtherType?
    && forall i :: 0 <= i < |setup.challengeMap| ==> !setup.challengeMap[i].kind.OtherType?
  }

  lemma RoutedKinds(setup: Setup, values: seq<Value>)
    requires KnownKinds(setup) && Plan(setup, values).Some?
    ensures forall key :: key in Plan(setup, values).value ==> !Plan(setup, values).value[key].kind.OtherType?
  {
    hide Plan, KeyOfValue, ValueText, KeysOfValues, Overrides;
    forall key | key in Plan(setup, values).value ensures !Plan(setup, values).value[key].kind.OtherType? {
      PlannedRoutes(setup, values, key);
      if Overrides(setup.challengeMap).Some? { OverriddenKinds(setup.challengeMap); }
    }
  }

  lemma {:induction false} OverriddenKinds(list: seq<Override>)
    requires Overrides(list).Some? && forall i :: 0 <= i < |list| ==> !list[i].kind.OtherType?
    ensures forall key :: key in Overrides(list).value ==> !Overrides(list).value[key].kind.OtherType?
  {
    hide KeyOfValue, ValidValue;
    if list != [] { OverriddenKinds(list[..|list| - 1]); }
  }

  lemma NoPlanNoLeaf(env: Env, setup: Setup, accountUrl: Option<string>, values: seq<Value>)
    ensures IssueRun(env, [], setup, accountUrl, values).leaf.Some? ==> Plan(setup, values).Some?
  {
    hide Plan, OpenAccount, Fulfil, IdentifiersOfValues;
    PlannedNotEmpty(setup, values);
  }

  /** What the responder issues recovers as it was requested, so renewals through it are fixed
      points on identity like those the authority signs directly. */
  lemma ResponderRecovers(scene: Scene, patience: Patience, setup: Setup, accountUrl: Option<string>, write: Writer)
    requires FaithfulWire(scene.wire) && Inv(scene.start) && ReadsBack(write) && KnownKinds(setup)
    requires setup.newAccount == scene.base + "/new-account" && setup.newOrder == scene.base + "/new-order"
    ensures Recovers(ResponderIssuer(scene, patience, setup, accountUrl, write))
  {
    hide FaithfulWire, Inv, IssueRun, ResponderWorld, Recover, ValueText, Saved, ReadsBack, KnownKinds, Texts, Plan;
    var issue := ResponderIssuer(scene, patience, setup, accountUrl, write);
    forall values | issue(values).Some?
      ensures values != [] && CommonNameFits(values)
      ensures issue(values).value.domain == ValueText(values[0]) && issue(values).value.domains == Texts(values)
      ensures Recover(issue(values).value) == Some(values)
    {
      IssuedByResponder(scene, patience, setup, accountUrl, write, values);
    }
  }

  lemma IssuedByResponder(scene: Scene, patience: Patience, setup: Setup, accountUrl: Option<string>, write: Writer,
                          values: seq<Value>)
    requires FaithfulWire(scene.wire) && Inv(scene.start) && ReadsBack(write) && KnownKinds(setup)
    requires setup.newAccount == scene.base + "/new-account" && setup.newOrder == scene.base + "/new-order"
    requires ResponderIssuer(scene, patience, setup, accountUrl, write)(values).Some?
    ensures values != [] && CommonNameFits(values)
    ensures var bundle := ResponderIssuer(scene, patience, setup, accountUrl, write)(values).value;
            && bundle.domain == ValueText(values[0]) && bundle.domains == Texts(values)
            && Recover(bundle) == Some(values)
  {
    hide FaithfulWire, Inv, IssueRun, ResponderWorld, Recover, ValueText, ReadsBack, KnownKinds, Texts, Plan, Sends,
      Successes, Cleaned, RunRequests, NamesOf;
    var env := Env(ResponderWorld(scene), patience);
    NoPlanNoLeaf(env, setup, accountUrl, values);
    RoutedKinds(setup, values);
    PlanMeans(setup, values);
    IssueSucceeds(scene, patience, setup, accountUrl, values);
    OwnLeafRecovers(values, setup.certKey, write);
  }

  lemma OwnLeafRecovers(values: seq<Value>, key: PublicKey, write: Writer)
    requires values != [] && ValidValues(values) && ReadsBack(write)
    ensures Recover(Saved(values, Certificate(NamesOf(values), key), write)) == Some(values)
  {
    hide Greedy, ValidValues, SansReadable, SanValues, ValueText, Recover, Saved;
    var leaf := Certificate(NamesOf(values), key);
    NamesReadBack(values);
    SavedLeaf(values, leaf, write);
    GreedyOnOwnTexts(values);
  }
}
