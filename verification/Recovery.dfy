/** Recovering a stored certificate's typed identifiers from its leaf SANs. */
module Recovery {
  import opened Wrappers
  import opened Text
  import opened Identifiers

  /** The test that pairs a SAN value with a metadata string. */
  predicate Matches(value: Value, domain: string) {
    match value
    case Dns(name) => Lower(name) == Lower(domain)
    case Ip(address) => AddressText(address) == domain
  }

  function RemoveAt<T>(s: seq<T>, k: nat): seq<T>
    requires k < |s|
  {
    s[..k] + s[k + 1..]
  }

  /** `next(index for index, value in enumerate(remaining) if ...)`. */
  function FirstMatch(remaining: seq<Value>, domain: string): (k: Option<nat>)
    ensures k.Some? ==> k.value < |remaining| && Matches(remaining[k.value], domain)
    ensures k.Some? ==> forall i :: 0 <= i < k.value ==> !Matches(remaining[i], domain)
    ensures k.None? ==> forall i :: 0 <= i < |remaining| ==> !Matches(remaining[i], domain)
  {
    if remaining == [] then None
    else if Matches(remaining[0], domain) then Some(0)
    else
      match FirstMatch(remaining[1..], domain)
      case None => None
      case Some(k) =>
        assert forall i :: 1 <= i < k + 1 ==> remaining[i] == remaining[1..][i - 1];
        Some(k + 1)
  }

  /** What a recovery must be: the same values, the i-th naming the i-th metadata string. */
  ghost predicate Arranges(ordered: seq<Value>, values: seq<Value>, domains: seq<string>) {
    && |ordered| == |domains|
    && multiset(ordered) == multiset(values)
    && forall i :: 0 <= i < |domains| ==> Matches(ordered[i], domains[i])
  }

  /** Two valid values that match one string match the same strings throughout. */
  lemma MatchingValuesInterchange(u: Value, v: Value, shared: string, other: string)
    requires ValidValue(u) && ValidValue(v)
    requires Matches(u, shared) && Matches(v, shared)
    ensures Matches(u, other) <==> Matches(v, other)
  {
    hide ValidDns, AddressText, Lower;
    if u.Dns? && v.Ip? {
      DnsAgainstAddress(u.name, v.address, shared, other);
    } else if u.Ip? && v.Dns? {
      DnsAgainstAddress(v.name, u.address, shared, other);
    }
  }

  /** A DNS name shares a string with an address only when that string has no letters,
      and then both match that one string alone. */
  lemma DnsAgainstAddress(name: string, address: Address, shared: string, other: string)
    requires ValidDns(name, true)
    requires Lower(name) == Lower(shared) && AddressText(address) == shared
    ensures Lower(name) == Lower(other) <==> shared == other
  {
    hide ValidDns, AddressText;
    AddressTextShape(address);
    DnsHasNoColon(name, true);
    forall i | 0 <= i < |shared| ensures shared[i] != ':' {
      assert Lower(name)[i] == LowerChar(shared[i]);
      assert name[i] in name;
    }
    V4TextShape(address);
    if Lower(other) == Lower(shared) {
      forall i | 0 <= i < |shared| ensures other[i] == shared[i] {
        assert Lower(other)[i] == LowerChar(shared[i]);
        assert shared[i] in shared;
      }
    }
  }

  lemma RemoveAtMultiset<T>(s: seq<T>, k: nat)
    requires k < |s|
    ensures multiset(RemoveAt(s, k)) == multiset(s) - multiset{s[k]}
  {
    assert s == s[..k] + [s[k]] + s[k + 1..];
  }

  /** Exchange step: if some arrangement exists, one exists that starts with any value
      matching the first string. */
  lemma ExchangeFirst(ordered: seq<Value>, values: seq<Value>, domains: seq<string>, k: nat)
    requires ValidValues(values) && domains != [] && k < |values|
    requires Arranges(ordered, values, domains) && Matches(values[k], domains[0])
    ensures exists rest :: Arranges(rest, RemoveAt(values, k), domains[1..])
  {
    hide ValidValue, Matches, ValidValues, RemoveAt;
    var chosen := values[k];
    var j := PlaceOf(ordered, values, k);
    FirstValid(ordered, values);
    ElementValid(values, k);
    // put the displaced first value where the chosen one was
    var rest := ordered[j := ordered[0]][1..];
    DropSwapped(ordered, j);
    RemoveAtMultiset(values, k);
    forall i | 0 <= i < |rest| ensures Matches(rest[i], domains[1..][i]) {
      assert domains[1..][i] == domains[i + 1];
      if i + 1 == j { MatchingValuesInterchange(ordered[0], chosen, domains[0], domains[j]); }
    }
    assert Arranges(rest, RemoveAt(values, k), domains[1..]);
  }

  lemma PlaceOf(ordered: seq<Value>, values: seq<Value>, k: nat) returns (j: nat)
    requires multiset(ordered) == multiset(values) && k < |values|
    ensures j < |ordered| && ordered[j] == values[k]
  {
    assert values[k] in multiset(values);
    j :| 0 <= j < |ordered| && ordered[j] == values[k];
  }

  lemma FirstValid(ordered: seq<Value>, values: seq<Value>)
    requires multiset(ordered) == multiset(values) && ValidValues(values) && ordered != []
    ensures ValidValue(ordered[0])
  {
    hide ValidValue;
    assert ordered[0] in multiset(ordered);
    assert ordered[0] in values;
  }

  lemma ElementValid(values: seq<Value>, k: nat)
    requires ValidValues(values) && k < |values|
    ensures ValidValue(values[k])
  {
    hide ValidValue;
  }

  lemma DropSwapped<T>(s: seq<T>, j: nat)
    requires j < |s|
    ensures multiset(s[j := s[0]][1..]) == multiset(s) - multiset{s[j]}
  {
    var swapped := s[j := s[0]];
    assert multiset(swapped) == multiset(s) - multiset{s[j]} + multiset{s[0]};
    assert swapped == [s[0]] + swapped[1..];
    var left, right := multiset(swapped[1..]), multiset(s) - multiset{s[j]};
    assert multiset{s[0]} + left == multiset{s[0]} + right;
    assert forall x :: left[x] == (multiset{s[0]} + left)[x] - multiset{s[0]}[x];
    assert left == right;
  }

  /** An arrangement needs a value matching the first string. */
  lemma ArrangementNeedsMatch(ordered: seq<Value>, values: seq<Value>, domains: seq<string>)
    requires Arranges(ordered, values, domains) && domains != []
    ensures exists i :: 0 <= i < |values| && Matches(values[i], domains[0])
  {
    hide Matches;
    assert ordered[0] in multiset(ordered);
    assert ordered[0] in values;
  }

  /** Nothing arranges a value under no string. */
  lemma ArrangementOfNone(ordered: seq<Value>, values: seq<Value>)
    requires Arranges(ordered, values, [])
    ensures values == []
  {
    hide Matches;
    assert |multiset(ordered)| == |multiset(values)|;
  }

  lemma RemoveAtValid(values: seq<Value>, k: nat)
    requires ValidValues(values) && k < |values|
    ensures ValidValues(RemoveAt(values, k))
  {
    hide ValidValue;
  }

  /** The loop of `certificate_bundle_identifier_values`: greedy matching in metadata
      order returns an arrangement exactly when there is one. */
  method Reorder(values: seq<Value>, domains: seq<string>) returns (r: Option<seq<Value>>)
    requires ValidValues(values)
    ensures r.Some? ==> Arranges(r.value, values, domains)
    ensures r.None? ==> !exists ordered :: Arranges(ordered, values, domains)
    ensures r == Greedy(values, domains)
  {
    hide Matches, ValidValue, Greedy, ValidValues;
    var remaining := values;
    var ordered: seq<Value> := [];
    assert domains[0..] == domains;
    if Greedy(values, domains).Some? {
      assert ordered + Greedy(values, domains).value == Greedy(values, domains).value;
    }
    for k := 0 to |domains|
      invariant Greedy(values, domains) ==
                match Greedy(remaining, domains[k..]) case None => None case Some(rest) => Some(ordered + rest)
    {
      var found := FirstMatch(remaining, domains[k]);
      GreedyStep(remaining, domains[k..]);
      assert domains[k..][1..] == domains[k + 1..];
      if found.None? {
        GreedyExact(values, domains);
        return None;
      }
      ghost var rest := Greedy(RemoveAt(remaining, found.value), domains[k + 1..]);
      if rest.Some? {
        assert ordered + ([remaining[found.value]] + rest.value) == (ordered + [remaining[found.value]]) + rest.value;
      }
      ordered := ordered + [remaining[found.value]];
      remaining := RemoveAt(remaining, found.value);
    }
    GreedyEnd(remaining);
    GreedyExact(values, domains);
    assert domains[|domains|..] == [];
    assert ordered + [] == ordered;
    if remaining != [] {
      return None;
    }
    return Some(ordered);
  }

  /** The greedy matching as a function. */
  function Greedy(values: seq<Value>, domains: seq<string>): Option<seq<Value>>
    decreases |domains|
  {
    if domains == [] then if values == [] then Some([]) else None
    else
      match FirstMatch(values, domains[0])
      case None => None
      case Some(k) =>
        match Greedy(RemoveAt(values, k), domains[1..])
        case None => None
        case Some(rest) => Some([values[k]] + rest)
  }

  lemma GreedyStep(values: seq<Value>, domains: seq<string>)
    requires domains != []
    ensures Greedy(values, domains) ==
            match FirstMatch(values, domains[0])
            case None => None
            case Some(k) =>
              match Greedy(RemoveAt(values, k), domains[1..])
              case None => None
              case Some(rest) => Some([values[k]] + rest)
  {
  }

  lemma GreedyEnd(values: seq<Value>)
    ensures Greedy(values, []) == if values == [] then Some([]) else None
  {
  }

  /** Greedy matching is sound and complete. */
  lemma {:induction false} GreedyExact(values: seq<Value>, domains: seq<string>)
    requires ValidValues(values)
    ensures Greedy(values, domains).Some? ==> Arranges(Greedy(values, domains).value, values, domains)
    ensures Greedy(values, domains).Some? <==> exists ordered :: Arranges(ordered, values, domains)
    decreases |domains|
  {
    hide Matches, ValidValue, ValidValues;
    if domains == [] {
      if values == [] { assert Arranges([], values, domains); }
      forall ordered | Arranges(ordered, values, domains) ensures values == [] {
        ArrangementOfNone(ordered, values);
      }
    } else {
      forall ordered | Arranges(ordered, values, domains) ensures FirstMatch(values, domains[0]).Some? {
        ArrangementNeedsMatch(ordered, values, domains);
      }
      if FirstMatch(values, domains[0]).Some? {
        var k := FirstMatch(values, domains[0]).value;
        RemoveAtValid(values, k);
        GreedyExact(RemoveAt(values, k), domains[1..]);
        forall ordered | Arranges(ordered, values, domains)
          ensures Greedy(RemoveAt(values, k), domains[1..]).Some?
        {
          ExchangeFirst(ordered, values, domains, k);
        }
        var rest := Greedy(RemoveAt(values, k), domains[1..]);
        if rest.Some? { PushFirst(rest.value, values, domains, k); }
      }
    }
  }

  lemma PushFirst(rest: seq<Value>, values: seq<Value>, domains: seq<string>, k: nat)
    requires domains != [] && k < |values| && Matches(values[k], domains[0])
    requires Arranges(rest, RemoveAt(values, k), domains[1..])
    ensures Arranges([values[k]] + rest, values, domains)
  {
    hide Matches;
    var ordered := [values[k]] + rest;
    RemoveAtMultiset(values, k);
    assert multiset(ordered) == multiset{values[k]} + multiset(rest);
    forall i | 0 <= i < |domains| ensures Matches(ordered[i], domains[i]) {
      if i > 0 { assert domains[1..][i - 1] == domains[i]; }
    }
  }
}
