/** The limiter by the names of the issuances: without records, which names share a limit and
    how many issuances a window holds. */
module NamedLimits {
  import opened Text
  import opened RateLimit
  import RegisteredDomain

  type DomainRule = string -> string

  // ---------------------------------------------------------------- a limiter without records

  /** An issuance by the names it was for. */
  datatype Issuance = Issuance(domains: seq<string>, at: Time)

  datatype NamedOp =
    | CheckNames(id: nat, domains: seq<string>, at: Time)
    | RecordNames(id: nat, at: Time)
    | AbandonNames(id: nat, at: Time)

  datatype NamedLimiter = NamedLimiter(issued: seq<Issuance>, inFlight: map<nat, seq<string>>)

  /** How many of the issuances in a closed interval had a name that counts with this one. */
  function IssuedIn(rule: DomainRule, issued: seq<Issuance>, domain: string, from: Time, to: Time): nat {
    if issued == [] then 0
    else
      var last := issued[|issued| - 1];
      IssuedIn(rule, issued[..|issued| - 1], domain, from, to)
      + if from <= last.at <= to && CountsWith(rule, last.domains, domain) then 1 else 0
  }

  /** The same from some time on. */
  function IssuedSince(rule: DomainRule, issued: seq<Issuance>, domain: string, since: Time): nat {
    if issued == [] then 0
    else
      var last := issued[|issued| - 1];
      IssuedSince(rule, issued[..|issued| - 1], domain, since)
      + if last.at >= since && CountsWith(rule, last.domains, domain) then 1 else 0
  }

  /** An issuance is admitted when each of its names counts with fewer than `limit` issuances in
      the window, and takes its place when it is recorded. */
  function ApplyNames(rule: DomainRule, limit: int, window: Time, s: NamedLimiter, op: NamedOp): NamedLimiter {
    match op
    case CheckNames(id, domains, at) =>
      if id !in s.inFlight && forall d :: d in domains ==> IssuedSince(rule, s.issued, d, at - window) < limit
      then s.(inFlight := s.inFlight[id := domains]) else s
    case RecordNames(id, at) =>
      if id in s.inFlight then NamedLimiter(s.issued + [Issuance(s.inFlight[id], at)], s.inFlight - {id}) else s
    case AbandonNames(id, at) => s.(inFlight := s.inFlight - {id})
  }

  function RunNames(rule: DomainRule, limit: int, window: Time, ops: seq<NamedOp>): NamedLimiter {
    if ops == [] then NamedLimiter([], map[])
    else ApplyNames(rule, limit, window, RunNames(rule, limit, window, ops[..|ops| - 1]), ops[|ops| - 1])
  }

  predicate NamesForward(ops: seq<NamedOp>) {
    forall i, j :: 0 <= i < j < |ops| ==> ops[i].at <= ops[j].at
  }

  predicate AtMostNamed(rule: DomainRule, limit: int, window: Time, ops: seq<NamedOp>, k: nat) {
    forall i :: 0 <= i <= |ops| ==> |RunNames(rule, limit, window, ops[..i]).inFlight| <= k
  }

  // ---------------------------------------------------------------- the records simulate it

  /** The records of the issuances, each under the registered domains of its names. */
  ghost predicate RecordedAs(rule: DomainRule, log: seq<IssuanceRecord>, issued: seq<Issuance>) {
    && (forall d, since :: |Issuances(log, Lower(rule(d)), since)| == IssuedSince(rule, issued, d, since))
    && (forall d, from, to :: CountIn(log, Lower(rule(d)), from, to) == IssuedIn(rule, issued, d, from, to))
  }

  ghost predicate Simulates(rule: DomainRule, s: Limiter, n: NamedLimiter) {
    && RecordedAs(rule, s.log, n.issued)
    && s.inFlight.Keys == n.inFlight.Keys
    && forall id :: id in n.inFlight ==> s.inFlight[id] == Registered(n.inFlight[id], rule)
  }

  lemma {:induction false} Listing(registered: set<string>) returns (order: seq<string>)
    ensures Lists(order, registered)
  {
    if registered == {} {
      order := [];
    } else {
      var rd :| rd in registered;
      var rest := Listing(registered - {rd});
      ListsOneMore(rest, registered - {rd}, rd);
      assert registered - {rd} + {rd} == registered;
      order := rest + [rd];
    }
  }

  lemma InRegistered(rule: DomainRule, domains: seq<string>, domain: string)
    ensures Lower(rule(domain)) in Registered(domains, rule) <==> CountsWith(rule, domains, domain)
  {
    hide Lower;
  }

  lemma RecordedOneMore(rule: DomainRule, log: seq<IssuanceRecord>, issued: seq<Issuance>, order: seq<string>,
                        domains: seq<string>, at: Time)
    requires RecordedAs(rule, log, issued) && Lists(order, Registered(domains, rule))
    ensures RecordedAs(rule, log + RecordsFor(order, domains, at), issued + [Issuance(domains, at)])
  {
    hide Issuances, CountIn, RecordsFor, CountsWith, Lower, Registered;
    var records, all := RecordsFor(order, domains, at), issued + [Issuance(domains, at)];
    assert all[..|issued|] == issued;
    forall d, since
      ensures |Issuances(log + records, Lower(rule(d)), since)| == IssuedSince(rule, all, d, since)
    {
      IssuancesAppend(log, records, Lower(rule(d)), since);
      IssuancesOfRecords(order, domains, at, Lower(rule(d)), since);
      InRegistered(rule, domains, d);
    }
    forall d, from, to
      ensures CountIn(log + records, Lower(rule(d)), from, to) == IssuedIn(rule, all, d, from, to)
    {
      CountAppend(log, records, Lower(rule(d)), from, to);
      CountOfRecords(order, domains, at, Lower(rule(d)), from, to);
      InRegistered(rule, domains, d);
    }
  }

  lemma AdmittedAlike(rule: DomainRule, s: Limiter, n: NamedLimiter, domains: seq<string>, since: Time, limit: int)
    requires Simulates(rule, s, n)
    ensures Allows(s.log, Registered(domains, rule), since, limit) <==>
            forall d :: d in domains ==> IssuedSince(rule, n.issued, d, since) < limit
  {
    hide Issuances, IssuedSince, IssuedIn, CountIn, Lower;
    if Allows(s.log, Registered(domains, rule), since, limit) {
      forall d | d in domains ensures IssuedSince(rule, n.issued, d, since) < limit {
        assert Lower(rule(d)) in Registered(domains, rule);
      }
    }
  }

  /** The operation on the records that stands for one on the names. */
  lemma OpFor(rule: DomainRule, limit: int, window: Time, s: Limiter, n: NamedLimiter, op: NamedOp) returns (o: Op)
    requires Simulates(rule, s, n)
    ensures o.at == op.at && Simulates(rule, Apply(limit, window, s, o), ApplyNames(rule, limit, window, n, op))
  {
    hide RecordedAs, RecordsFor, Registered, Lists, Allows, IssuedSince;
    match op
    case CheckNames(id, domains, at) =>
      AdmittedAlike(rule, s, n, domains, at - window, limit);
      o := Check(id, Registered(domains, rule), at);
    case RecordNames(id, at) =>
      var domains := if id in n.inFlight then n.inFlight[id] else [];
      var order := Listing(Registered(domains, rule));
      o := Record(id, order, domains, at, AllAtZero());
      if id in n.inFlight { RecordedOneMore(rule, s.log, n.issued, order, domains, at); }
    case AbandonNames(id, at) => o := Abandon(id, at);
  }

  lemma NameStep(rule: DomainRule, limit: int, window: Time, ops: seq<NamedOp>, op: NamedOp)
    ensures RunNames(rule, limit, window, ops + [op]) ==
            ApplyNames(rule, limit, window, RunNames(rule, limit, window, ops), op)
  {
    assert (ops + [op])[..|ops|] == ops;
  }

  lemma NothingSimulates(rule: DomainRule)
    ensures Simulates(rule, Limiter([], map[]), NamedLimiter([], map[]))
  {
  }

  /** The run on records simulates the run on names at every step. */
  ghost predicate SimulatedBy(rule: DomainRule, limit: int, window: Time, names: seq<NamedOp>, ops: seq<Op>) {
    && |ops| == |names| && (forall i :: 0 <= i < |ops| ==> ops[i].at == names[i].at)
    && forall i :: 0 <= i <= |ops| ==>
         Simulates(rule, RunOps(limit, window, ops[..i]), RunNames(rule, limit, window, names[..i]))
  }

  lemma NothingSimulated(rule: DomainRule, limit: int, window: Time)
    ensures SimulatedBy(rule, limit, window, [], [])
  {
    hide Simulates;
    NothingSimulates(rule);
    var none: seq<Op>, noNames: seq<NamedOp> := [], [];
    assert none[..0] == none && noNames[..0] == noNames;
  }

  lemma SimulatedEnd(rule: DomainRule, limit: int, window: Time, names: seq<NamedOp>, ops: seq<Op>)
    requires SimulatedBy(rule, limit, window, names, ops)
    ensures Simulates(rule, RunOps(limit, window, ops), RunNames(rule, limit, window, names))
  {
    hide Simulates, RunOps, RunNames;
    assert ops[..|ops|] == ops && names[..|ops|] == names;
  }

  lemma SimulatedOneMore(rule: DomainRule, limit: int, window: Time, names: seq<NamedOp>, ops: seq<Op>, name: NamedOp,
                         op: Op)
    requires SimulatedBy(rule, limit, window, names, ops) && op.at == name.at
    requires Simulates(rule, RunOps(limit, window, ops + [op]), RunNames(rule, limit, window, names + [name]))
    ensures SimulatedBy(rule, limit, window, names + [name], ops + [op])
  {
    hide Simulates, RunOps, RunNames;
    var all, allNames := ops + [op], names + [name];
    forall i | 0 <= i <= |all|
      ensures Simulates(rule, RunOps(limit, window, all[..i]), RunNames(rule, limit, window, allNames[..i]))
    {
      if i <= |ops| {
        assert all[..i] == ops[..i] && allNames[..i] == names[..i];
      } else {
        assert all[..i] == all && allNames[..i] == allNames;
      }
    }
  }

  /** Every run on names is simulated by one on records, step for step. */
  lemma {:induction false} RunSimulated(rule: DomainRule, limit: int, window: Time, names: seq<NamedOp>)
    returns (ops: seq<Op>)
    ensures SimulatedBy(rule, limit, window, names, ops)
  {
    hide Simulates, SimulatedBy, Apply, ApplyNames, RunOps, RunNames;
    if names == [] {
      NothingSimulated(rule, limit, window);
      ops := [];
    } else {
      var front, last := names[..|names| - 1], names[|names| - 1];
      var before := RunSimulated(rule, limit, window, front);
      SimulatedEnd(rule, limit, window, front, before);
      var op := OpFor(rule, limit, window, RunOps(limit, window, before), RunNames(rule, limit, window, front), last);
      ops := before + [op];
      RunStep(limit, window, before, op);
      NameStep(rule, limit, window, front, last);
      SimulatedOneMore(rule, limit, window, front, before, last, op);
      assert front + [last] == names;
    }
  }

  lemma SameFlight(rule: DomainRule, s: Limiter, n: NamedLimiter)
    requires Simulates(rule, s, n)
    ensures |s.inFlight| == |n.inFlight|
  {
    hide RecordedAs;
    assert |s.inFlight| == |s.inFlight.Keys| == |n.inFlight.Keys| == |n.inFlight|;
  }

  /** For issuances given by their names: with at most k in flight, no closed window holds more
      than limit + k - 1 issuances with a name that counts with a given one, for every rule that
      says which names count together. */
  lemma NamedWindowBound(rule: DomainRule, limit: nat, window: Time, names: seq<NamedOp>, domain: string, from: Time,
                         k: nat)
    requires NamesForward(names) && k >= 1 && AtMostNamed(rule, limit, window, names, k)
    ensures IssuedIn(rule, RunNames(rule, limit, window, names).issued, domain, from, from + window) <= limit + k - 1
  {
    hide Apply, ApplyNames, RunOps, RunNames, Simulates, IssuedIn, CountIn;
    var ops := RunSimulated(rule, limit, window, names);
    SimulatedEnd(rule, limit, window, names, ops);
    forall i | 0 <= i <= |ops| ensures |RunOps(limit, window, ops[..i]).inFlight| <= k {
      SameFlight(rule, RunOps(limit, window, ops[..i]), RunNames(rule, limit, window, names[..i]));
    }
    WindowBound(limit, window, ops, Lower(rule(domain)), from, k);
    CountedAlike(rule, RunOps(limit, window, ops), RunNames(rule, limit, window, names), domain, from, from + window);
  }

  lemma CountedAlike(rule: DomainRule, s: Limiter, n: NamedLimiter, domain: string, from: Time, to: Time)
    requires Simulates(rule, s, n)
    ensures CountIn(s.log, Lower(rule(domain)), from, to) == IssuedIn(rule, n.issued, domain, from, to)
  {
    hide Lower, CountIn, IssuedIn;
  }

  // ---------------------------------------------------------------- siblings

  /** The name of these labels is not a bare suffix under which names are counted apart. */
  predicate IsParent(parts: seq<string>) {
    |parts| >= 3 || (|parts| == 2 && RegisteredDomain.Tail(parts, 2) !in RegisteredDomain.KNOWN_SLDS)
  }

  /** Two names side by side, one label below the same parent, count together under the default
      rule unless the parent is a bare suffix. */
  lemma SiblingsCountTogether(first: string, second: string, parts: seq<string>)
    requires RegisteredDomain.PlainLabel(first) && RegisteredDomain.PlainLabel(second)
    requires RegisteredDomain.PlainLabels(parts) && IsParent(parts)
    ensures CountsWith(RegisteredDomain.Default, [Join([first] + parts, '.')], Join([second] + parts, '.'))
  {
    hide RegisteredDomain.Default, RegisteredDomain.PlainLabel, RegisteredDomain.PlainLabels, RegisteredDomain.Tail,
      Lower, Join, CountsWith;
    RegisteredDomain.SubdomainCounts(first, parts);
    RegisteredDomain.SubdomainCounts(second, parts);
    OneNameCounts(RegisteredDomain.Default, Join([first] + parts, '.'), Join([second] + parts, '.'));
  }

  lemma OneNameCounts(rule: DomainRule, domain: string, other: string)
    ensures CountsWith(rule, [domain], other) <==> Lower(rule(domain)) == Lower(rule(other))
  {
    hide Lower;
    assert domain in [domain];
  }

  /** A run of issuances for one name each, one after the other at time 0. */
  function Repeated(domain: string, n: nat): seq<NamedOp> {
    if n == 0 then [] else Repeated(domain, n - 1) + [CheckNames(0, [domain], 0)] + [RecordNames(0, 0)]
  }

  function IssuedOften(domain: string, n: nat): seq<Issuance> {
    if n == 0 then [] else IssuedOften(domain, n - 1) + [Issuance([domain], 0)]
  }

  lemma {:induction false} IssuedOftenCounts(rule: DomainRule, domain: string, other: string, n: nat, since: Time)
    requires since <= 0
    ensures IssuedSince(rule, IssuedOften(domain, n), other, since) ==
            if Lower(rule(domain)) == Lower(rule(other)) then n else 0
  {
    hide Lower, CountsWith;
    if n > 0 {
      IssuedOftenCounts(rule, domain, other, n - 1, since);
      var before := IssuedOften(domain, n - 1);
      assert (before + [Issuance([domain], 0)])[..|before|] == before;
      OneNameCounts(rule, domain, other);
    }
  }

  lemma {:induction false} RepeatedRun(rule: DomainRule, limit: nat, window: Time, domain: string, n: nat)
    requires n <= limit && window >= 0
    ensures RunNames(rule, limit, window, Repeated(domain, n)) == NamedLimiter(IssuedOften(domain, n), map[])
  {
    hide RunNames, IssuedSince, Lower;
    if n == 0 {
      NothingRun(rule, limit, window);
    } else {
      RepeatedRun(rule, limit, window, domain, n - 1);
      var before := Repeated(domain, n - 1);
      NameStep(rule, limit, window, before, CheckNames(0, [domain], 0));
      NameStep(rule, limit, window, before + [CheckNames(0, [domain], 0)], RecordNames(0, 0));
      IssuedOftenCounts(rule, domain, domain, n - 1, 0 - window);
      var flight: map<nat, seq<string>> := map[0 := [domain]];
      assert flight - {0} == map[];
    }
  }

  lemma NothingRun(rule: DomainRule, limit: nat, window: Time)
    ensures RunNames(rule, limit, window, []) == NamedLimiter([], map[])
  {
  }

  /** After as many issuances for one name as the limit allows, a name is refused in the same
      window exactly when it counts with that one. */
  lemma LimitShared(rule: DomainRule, limit: nat, window: Time, domain: string, other: string)
    requires limit >= 1 && window >= 0
    ensures var s := RunNames(rule, limit, window, Repeated(domain, limit));
            (ApplyNames(rule, limit, window, s, CheckNames(0, [other], 0)) == s) <==>
            Lower(rule(domain)) == Lower(rule(other))
  {
    hide RunNames, IssuedSince, Lower;
    RepeatedRun(rule, limit, window, domain, limit);
    IssuedOftenCounts(rule, domain, other, limit, 0 - window);
    assert other in [other];
    var s := RunNames(rule, limit, window, Repeated(domain, limit));
    assert 0 in s.(inFlight := s.inFlight[0 := [other]]).inFlight;
  }
}
