/** `DNS01Handler`: which TXT records it keeps track of, and what is left of them after `issue`. */
module Dns01 {
  import opened Wrappers
  import opened Identifiers
  import Text
  import opened CsrBinding
  import opened Acme
  import opened IssueFlow
  import opened IssueSafety
  import opened IssueWorlds

  // ---------------------------------------------------------------- the handler

  /** A record by what it was provisioned for: the domain and the token. */
  type Slot = (string, string)

  /** A TXT record: its name and its value. */
  type Record = (string, string)

  type Records = map<Slot, Record>

  /** How a provision ends: the provider raises, or the record is there but the wait for it
      raises, or it is there to be seen. */
  datatype Outcome = NotCreated | CreatedOnly | Visible

  /** `_acme_challenge_domain`. */
  function RecordName(domain: string): string {
    "_acme-challenge." + StripWildcard(domain)
  }

  /** A valid name and its wildcard share a record name, two names without that relation do not,
      and no record name has an asterisk. */
  lemma RecordNames(domain: string, other: string)
    requires ValidDns(domain, true) && ValidDns(other, true)
    ensures '*' !in RecordName(domain)
    ensures !("*." <= domain) ==> RecordName("*." + domain) == RecordName(domain) == "_acme-challenge." + domain
    ensures RecordName(domain) == RecordName(other) ==>
              domain == other || domain == "*." + other || other == "*." + domain
  {
    hide ValidLabels, Text.Split, Text.IsAscii;
    WildcardRoundTrip(domain);
    WildcardRoundTrip(other);
    var prefix := "_acme-challenge.";
    assert '*' !in prefix;
    assert ("*." + domain)[2..] == domain;
    if RecordName(domain) == RecordName(other) {
      assert StripWildcard(domain) == RecordName(domain)[|prefix|..] == StripWildcard(other);
    }
  }

  function AfterProvision(records: Records, slot: Slot, record: Record, outcome: Outcome): Records {
    if outcome.NotCreated? then records else records[slot := record]
  }

  class DNS01Handler {
    const digest: string -> string
    var records: Records

    constructor (digest: string -> string)
      ensures this.digest == digest && records == map[]
    {
      this.digest, records := digest, map[];
    }

    /** `provision`, given whether the provider creates the record and whether the wait for
        it returns; the record is tracked before the wait. */
    method Provision(domain: string, token: string, keyAuthorization: string, created: bool, seen: bool)
      returns (ok: bool)
      modifies this
      ensures ok <==> created && seen
      ensures created ==> records == old(records)[(domain, token) := (RecordName(domain), digest(keyAuthorization))]
      ensures !created ==> records == old(records)
      ensures records == AfterProvision(old(records), (domain, token), (RecordName(domain), digest(keyAuthorization)),
                                        if ok then Visible else if created then CreatedOnly else NotCreated)
    {
      var record := (RecordName(domain), digest(keyAuthorization));
      if !created {
        return false;
      }
      records := records[(domain, token) := record];
      return seen;
    }

    /** `deprovision`, given whether the provider deletes: the record is forgotten before it is
        deleted, and nothing is deleted that is not tracked. */
    method Deprovision(domain: string, token: string, deletes: bool) returns (deleted: Option<Record>, ok: bool)
      modifies this
      ensures records == old(records) - {(domain, token)}
      ensures deleted == if (domain, token) in old(records) then Some(old(records)[(domain, token)]) else None
      ensures ok <==> deleted.None? || deletes
    {
      if (domain, token) !in records {
        assert records - {(domain, token)} == records;
        return None, true;
      }
      deleted := Some(records[(domain, token)]);
      records := records - {(domain, token)};
      ok := deletes;
    }
  }

  // ---------------------------------------------------------------- its records along a run

  /** A handler in the world: its name, how each of its provisions ends, whether the provider
      deletes when it is asked to by the last call, and the record of a slot. */
  datatype Tracker = Tracker(
    handler: Handler, outcome: Trace -> Outcome, deletes: Trace -> bool, recordOf: Slot -> Record)

  /** The world reports a failure exactly where the handler's provision raises. */
  ghost predicate Behaves(world: World, h: Tracker) {
    forall t: Trace :: t != [] && t[|t| - 1].Provision? && t[|t| - 1].prepared.handler == h.handler ==>
      (Fails(world(t)) <==> h.outcome(t) != Visible)
  }

  function SlotOf(prepared: Prepared): Slot {
    (prepared.domain, prepared.token)
  }

  /** The handler's records after these calls. */
  function Tracked(h: Tracker, t: Trace): Records {
    if t == [] then map[]
    else
      var before, last := Tracked(h, t[..|t| - 1]), t[|t| - 1];
      match last
      case Provision(p) =>
        if p.handler == h.handler then AfterProvision(before, SlotOf(p), h.recordOf(SlotOf(p)), h.outcome(t))
          else before
      case Deprovision(p) => if p.handler == h.handler then before - {SlotOf(p)} else before
      case _ => before
  }

  /** The slots of those challenges that are this handler's. */
  function Slots(h: Tracker, list: seq<Prepared>): set<Slot> {
    set p | p in list && p.handler == h.handler :: SlotOf(p)
  }

  /** The slots of this handler's provisions that raised after creating their record. */
  function Abandoned(h: Tracker, t: Trace): set<Slot> {
    if t == [] then {}
    else
      var before, last := Abandoned(h, t[..|t| - 1]), t[|t| - 1];
      if last.Provision? && last.prepared.handler == h.handler && h.outcome(t).CreatedOnly?
      then before + {SlotOf(last.prepared)} else before
  }

  /** Nothing is provisioned once something was deprovisioned. */
  predicate ProvisionsFirst(t: Trace) {
    forall i, j :: 0 <= i < j < |t| && t[i].Deprovision? ==> !t[j].Provision?
  }

  lemma {:induction false} NoneCleaned(t: Trace)
    requires forall i :: 0 <= i < |t| ==> !t[i].Deprovision?
    ensures Cleaned(t) == []
  {
    if t != [] { NoneCleaned(t[..|t| - 1]); }
  }

  lemma SlotsOneMore(h: Tracker, list: seq<Prepared>, p: Prepared)
    ensures Slots(h, list + [p]) == Slots(h, list) + if p.handler == h.handler then {SlotOf(p)} else {}
    ensures Slots(h, []) == {}
  {
    hide SlotOf;
    forall slot ensures slot in Slots(h, list + [p]) <==>
                        slot in Slots(h, list) || (p.handler == h.handler && slot == SlotOf(p))
    {
      if slot in Slots(h, list) {
        var q :| q in list && q.handler == h.handler && SlotOf(q) == slot;
        assert q in list + [p];
      }
      if p.handler == h.handler && slot == SlotOf(p) { assert p in list + [p]; }
    }
  }

  /** What the handler tracks: what it created, apart from what was deprovisioned. */
  lemma {:induction false} TrackedExact(world: World, h: Tracker, t: Trace)
    requires Behaves(world, h) && ProvisionsFirst(t)
    ensures Tracked(h, t).Keys == (Slots(h, Successes(world, t)) + Abandoned(h, t)) - Slots(h, Cleaned(t))
  {
    hide Slots, Behaves;
    if t == [] {
      SlotsOneMore(h, [], Prepared(0, "", ""));
    } else {
      var front, last := t[..|t| - 1], t[|t| - 1];
      assert t == front + [last];
      TrackedExact(world, h, front);
      if last.Provision? {
        NoneCleaned(front);
        ProvisionTracked(world, h, front, last.prepared);
      } else if last.Deprovision? {
        SlotsOneMore(h, Cleaned(front), last.prepared);
      }
    }
  }

  lemma ProvisionTracked(world: World, h: Tracker, t: Trace, p: Prepared)
    requires Behaves(world, h) && Cleaned(t) == []
    requires Tracked(h, t).Keys == Slots(h, Successes(world, t)) + Abandoned(h, t) - Slots(h, Cleaned(t))
    ensures var after := t + [Provision(p)];
            Tracked(h, after).Keys == Slots(h, Successes(world, after)) + Abandoned(h, after) - Slots(h, Cleaned(after))
  {
    hide Slots, Tracked, Abandoned, Successes, Cleaned, Behaves;
    var after := t + [Provision(p)];
    OneMore(world, t, Provision(p));
    SlotsOneMore(h, Successes(world, t), p);
    TrackedProvision(h, t, p);
    if p.handler == h.handler { BehavesAt(world, h, after); }
    assert Cleaned(after) == [];
    assert Slots(h, Cleaned(after)) == {} && Slots(h, Cleaned(t)) == {};
    assert Successes(world, t) + [] == Successes(world, t);
  }

  lemma TrackedProvision(h: Tracker, t: Trace, p: Prepared)
    ensures var after, mine := t + [Provision(p)], p.handler == h.handler;
            && Tracked(h, after).Keys ==
               Tracked(h, t).Keys + (if mine && !h.outcome(after).NotCreated? then {SlotOf(p)} else {})
            && Abandoned(h, after) ==
               Abandoned(h, t) + (if mine && h.outcome(after).CreatedOnly? then {SlotOf(p)} else {})
  {
    assert (t + [Provision(p)])[..|t|] == t;
  }

  lemma BehavesAt(world: World, h: Tracker, t: Trace)
    requires Behaves(world, h) && t != [] && t[|t| - 1].Provision? && t[|t| - 1].prepared.handler == h.handler
    ensures Fails(world(t)) <==> h.outcome(t) != Visible
  {
  }

  // ---------------------------------------------------------------- the phases of a run

  predicate NoDeprovision(t: Trace) {
    forall i :: 0 <= i < |t| ==> !t[i].Deprovision?
  }

  /** Every provision came back without an exception. */
  ghost predicate Provisioned(world: World, t: Trace) {
    forall k: nat :: 0 < k <= |t| && t[k - 1].Provision? ==> !Fails(world(t[..k]))
  }

  /** The rest of the history provisions nothing. */
  predicate OnlyAfter(t: Trace, after: Trace) {
    t <= after && forall i :: |t| <= i < |after| ==> !after[i].Provision?
  }

  lemma ProvisionedLater(world: World, t: Trace, after: Trace)
    requires OnlyAfter(t, after) && Provisioned(world, t)
    ensures Provisioned(world, after)
  {
    forall k: nat | 0 < k <= |after| && after[k - 1].Provision? ensures !Fails(world(after[..k])) {
      assert after[..k] == t[..k];
    }
  }

  lemma OneProvisioned(world: World, t: Trace, p: Prepared)
    requires Provisioned(world, t) && !Fails(world(t + [Provision(p)]))
    ensures Provisioned(world, t + [Provision(p)])
  {
    var after := t + [Provision(p)];
    forall k: nat | 0 < k <= |after| && after[k - 1].Provision? ensures !Fails(world(after[..k])) {
      if k <= |t| { assert after[..k] == t[..k]; } else { assert after[..k] == after; }
    }
  }

  lemma {:induction false} NoneAbandoned(world: World, h: Tracker, t: Trace)
    requires Behaves(world, h) && Provisioned(world, t)
    ensures Abandoned(h, t) == {}
  {
    hide Behaves;
    if t != [] {
      assert t[..|t|] == t;
      var front := t[..|t| - 1];
      forall k: nat | 0 < k <= |front| && front[k - 1].Provision? ensures !Fails(world(front[..k])) {
        assert front[..k] == t[..k];
      }
      NoneAbandoned(world, h, front);
      if t[|t| - 1].Provision? && t[|t| - 1].prepared.handler == h.handler { BehavesAt(world, h, t); }
    }
  }

  lemma {:induction false} SolvePhase(world: World, t: Trace, authzs: seq<Fetched>, routes: RouteMap,
                                      open: seq<Prepared>)
    requires NoDeprovision(t) && Provisioned(world, t)
    ensures var (after, provisioned, solved) := Solve(world, t, authzs, routes, open);
            NoDeprovision(after) && (solved ==> Provisioned(world, after))
    decreases |authzs|
  {
    hide Choose, Provisioned;
    if authzs != [] && Choose(authzs[0].authz, routes).Some? {
      var (prepared, url) := Choose(authzs[0].authz, routes).value;
      var called := t + [Provision(prepared)];
      var sent := called + [Send(url, ReadyBody)];
      if !Fails(world(called)) && !Fails(world(sent)) {
        OneProvisioned(world, t, prepared);
        ProvisionedLater(world, called, sent);
        SolvePhase(world, sent, authzs[1..], routes, open + [prepared]);
      }
    }
  }

  lemma SendsPhase(world: World, t: Trace, after: Trace)
    requires OnlySends(t, after)
    ensures OnlyAfter(t, after) && (NoDeprovision(t) ==> NoDeprovision(after))
  {
  }

  lemma OnlyAfterJoin(t: Trace, middle: Trace, after: Trace)
    requires OnlyAfter(t, middle) && OnlyAfter(middle, after)
    ensures OnlyAfter(t, after)
  {
  }

  lemma AttemptPhase(env: Env, t: Trace, url: string, authzs: seq<Fetched>, routes: RouteMap, csr: Option<Csr>)
    requires NoDeprovision(t) && Provisioned(env.world, t)
    ensures var (after, provisioned, chain) := Attempt(env, t, url, authzs, routes, csr);
            NoDeprovision(after) && (chain.Some? ==> Provisioned(env.world, after))
  {
    hide Solve, PollAuthzs, Obtain, OnlySends, NoDeprovision, Provisioned, OnlyAfter;
    SolvePhase(env.world, t, authzs, routes, []);
    var (t1, provisioned, solved) := Solve(env.world, t, authzs, routes, []);
    if solved {
      PollAuthzsSends(env, t1, authzs);
      var (t2, valid) := PollAuthzs(env, t1, authzs);
      SendsPhase(env.world, t1, t2);
      ProvisionedLater(env.world, t1, t2);
      if valid {
        ObtainSends(env, t2, url, csr);
        SendsPhase(env.world, t2, Obtain(env, t2, url, csr).0);
        ProvisionedLater(env.world, t2, Obtain(env, t2, url, csr).0);
      }
    }
  }

  lemma {:induction false} CleanUpPhase(world: World, t: Trace, open: seq<Prepared>)
    ensures OnlyAfter(t, CleanUp(world, t, open).0)
    decreases |open|
  {
    if open != [] { CleanUpPhase(world, t + [Deprovision(open[0])], open[1..]); }
  }

  lemma ConcludePhase(world: World, t: Trace, setup: Setup, leaf: Certificate, values: seq<Value>)
    ensures OnlyAfter(t, Conclude(world, t, setup, leaf, values).0)
  {
    hide DnsTexts;
  }

  /** What the phases give: nothing is provisioned after the part under `try`, nothing is
      deprovisioned in it, and without an exception in it every provision came back. */
  ghost predicate Phased(world: World, t: Trace, succeeded: bool) {
    exists k :: PhasedAt(world, t, succeeded, k)
  }

  ghost predicate PhasedAt(world: World, t: Trace, succeeded: bool, k: int) {
    0 <= k <= |t| && NoDeprovision(t[..k]) && OnlyAfter(t[..k], t) && (succeeded ==> Provisioned(world, t[..k]))
  }

  lemma PhasedHere(world: World, middle: Trace, t: Trace, succeeded: bool)
    requires NoDeprovision(middle) && OnlyAfter(middle, t) && (succeeded ==> Provisioned(world, middle))
    ensures Phased(world, t, succeeded)
  {
    hide NoDeprovision, Provisioned;
    assert t[..|middle|] == middle;
    assert PhasedAt(world, t, succeeded, |middle|);
  }

  lemma FulfilPhase(env: Env, setup: Setup, account: Option<string>, values: seq<Value>, routes: RouteMap, t: Trace,
                    url: string, order: OrderView)
    requires values != [] && NoDeprovision(t) && Provisioned(env.world, t)
    ensures var ending := Fulfil(env, setup, account, values, routes, t, url, order);
            Phased(env.world, ending.trace, ending.leaf.Some?)
  {
    hide FetchAll, Attempt, CleanUp, AcceptLeaf, Conclude, OnlySends, GeneratedCsr, NoDeprovision, Provisioned,
      OnlyAfter, Phased;
    var ending := Fulfil(env, setup, account, values, routes, t, url, order);
    FetchAllSends(env.world, t, order.authorizations, []);
    var (t1, authzs) := FetchAll(env.world, t, order.authorizations, []);
    SendsPhase(env.world, t, t1);
    ProvisionedLater(env.world, t, t1);
    if authzs.Some? {
      var csr := GeneratedCsr(setup.certKey, values);
      AttemptPhase(env, t1, url, authzs.value, routes, csr);
      var (t2, provisioned, chain) := Attempt(env, t1, url, authzs.value, routes, csr);
      CleanUpPhase(env.world, t2, provisioned);
      var (t3, cleaned) := CleanUp(env.world, t2, provisioned);
      if chain.Some? && cleaned && AcceptLeaf(chain.value, values, setup.certKey).Some? {
        var leaf := AcceptLeaf(chain.value, values, setup.certKey).value;
        ConcludePhase(env.world, t3, setup, leaf, values);
        OnlyAfterJoin(t2, t3, Conclude(env.world, t3, setup, leaf, values).0);
      }
      PhasedHere(env.world, t2, ending.trace, ending.leaf.Some?);
    } else {
      NothingAfter(t1);
      PhasedHere(env.world, t1, t1, false);
    }
  }

  lemma NothingAfter(t: Trace)
    ensures OnlyAfter(t, t)
  {
  }

  lemma OpenAccountPhase(world: World, setup: Setup, accountUrl: Option<string>, values: seq<Value>)
    ensures var t := OpenAccount(world, [], setup, accountUrl, values).0; NoDeprovision(t) && Provisioned(world, t)
  {
    hide DnsTexts;
  }

  lemma IssuePhase(env: Env, setup: Setup, accountUrl: Option<string>, values: seq<Value>)
    ensures var ending := IssueRun(env, [], setup, accountUrl, values);
            Phased(env.world, ending.trace, ending.leaf.Some?)
  {
    hide Plan, OpenAccount, Fulfil, IdentifiersOfValues, OnlySends, NoDeprovision, Provisioned, OnlyAfter, Phased;
    PlannedNotEmpty(setup, values);
    Beginning(env.world);
    if Plan(setup, values).Some? {
      OpenAccountPhase(env.world, setup, accountUrl, values);
      var (t1, account) := OpenAccount(env.world, [], setup, accountUrl, values);
      var body := OrderBody(IdentifiersOfValues(values));
      var t2 := t1 + [Send(setup.newOrder, body)];
      OneSend(t1, setup.newOrder, body);
      SendsPhase(env.world, t1, t2);
      ProvisionedLater(env.world, t1, t2);
      NothingAfter(t1);
      NothingAfter(t2);
      PhasedHere(env.world, t1, t1, false);
      PhasedHere(env.world, t2, t2, false);
      if account.Some? && env.world(t2).OrderAt? {
        FulfilPhase(env, setup, account, values, Plan(setup, values).value, t2, env.world(t2).url, env.world(t2).order);
      }
    }
  }

  lemma Beginning(world: World)
    ensures Phased(world, [], false)
  {
    assert PhasedAt(world, [], false, 0);
  }

  lemma PhasedMeans(world: World, h: Tracker, t: Trace, succeeded: bool)
    requires Phased(world, t, succeeded) && Behaves(world, h)
    ensures ProvisionsFirst(t) && (succeeded ==> Abandoned(h, t) == {})
  {
    hide Behaves, Provisioned;
    var k :| PhasedAt(world, t, succeeded, k);
    if succeeded {
      ProvisionedLater(world, t[..k], t);
      NoneAbandoned(world, h, t);
    }
  }

  // ---------------------------------------------------------------- after `issue`

  /** What a DNS handler that starts empty tracks after `issue`: the records it created, apart
      from those deprovisioned. Unless a deprovision was cancelled while others were to come,
      it tracks nothing exactly when every provision that raised after creating its record was
      for a slot that another provision succeeded for. After a successful `issue` it tracks
      nothing. */
  lemma RecordsAfterIssue(env: Env, h: Tracker, setup: Setup, accountUrl: Option<string>, values: seq<Value>)
    requires Behaves(env.world, h)
    ensures var ending := IssueRun(env, [], setup, accountUrl, values);
            var t, successes := ending.trace, Slots(h, Successes(env.world, ending.trace));
            && Tracked(h, t).Keys == (successes + Abandoned(h, t)) - Slots(h, Cleaned(t))
            && ((forall i: nat :: !CancelledEarly(env.world, t, i)) ==>
                  (Tracked(h, t) == map[] <==> Abandoned(h, t) <= successes))
            && (ending.leaf.Some? ==> Tracked(h, t) == map[])
  {
    hide IssueRun, Behaves, Slots, Successes, Cleaned, Abandoned, Tracked, Phased, ProvisionsFirst, CancelledEarly,
      AllJustified, Plan;
    var ending := IssueRun(env, [], setup, accountUrl, values);
    IssuePhase(env, setup, accountUrl, values);
    PhasedMeans(env.world, h, ending.trace, ending.leaf.Some?);
    TrackedExact(env.world, h, ending.trace);
    NothingCalled(env.world);
    IssueBalanced(env, [], setup, accountUrl, values);
    if ending.leaf.Some? { SuccessClean(env, setup, accountUrl, values); }
    EmptyKeys(Tracked(h, ending.trace));
    var successes, abandoned := Slots(h, Successes(env.world, ending.trace)), Abandoned(h, ending.trace);
    NothingLeft(successes, abandoned);
  }

  lemma NothingLeft(successes: set<Slot>, abandoned: set<Slot>)
    ensures successes + abandoned - successes == {} <==> abandoned <= successes
  {
    if successes + abandoned - successes == {} {
      forall slot | slot in abandoned ensures slot in successes {
        assert slot !in successes + abandoned - successes;
      }
    }
  }

  lemma {:induction false} QuietTail(world: World, t: Trace, after: Trace)
    requires t <= after && forall i :: |t| <= i < |after| ==> !after[i].Provision? && !after[i].Deprovision?
    ensures Successes(world, after) == Successes(world, t) && Cleaned(after) == Cleaned(t)
    decreases |after|
  {
    if |after| > |t| { QuietTail(world, t, after[..|after| - 1]); } else { assert after == t; }
  }

  lemma AnnouncementsQuiet(setup: Setup, leaf: Certificate, values: seq<Value>)
    ensures forall i :: 0 <= i < |Announcements(setup, leaf, values)| ==>
              IsFinal(Announcements(setup, leaf, values)[i])
  {
    hide DnsTexts;
  }

  lemma CleanThrough(world: World, t: Trace, k: nat, tail: Trace)
    requires ClosedAt(world, t, 0, k) && t == t[..k] + tail && forall i :: 0 <= i < |tail| ==> IsFinal(tail[i])
    ensures Successes(world, t) == Cleaned(t)
  {
    hide Successes, Cleaned, NothingKept;
    forall i | k <= i < |t| ensures !t[i].Provision? && !t[i].Deprovision? {
      assert t[i] == tail[i - k];
    }
    QuietTail(world, t[..k], t);
  }

  lemma SuccessClean(env: Env, setup: Setup, accountUrl: Option<string>, values: seq<Value>)
    requires IssueRun(env, [], setup, accountUrl, values).leaf.Some?
    ensures var t := IssueRun(env, [], setup, accountUrl, values).trace; Successes(env.world, t) == Cleaned(t)
  {
    hide IssueRun, Successes, Cleaned, NothingKept, Announcements, ForRequest, IsFinal;
    NothingCalled(env.world);
    SuccessAnnounced(env, [], setup, accountUrl, values);
    var ending := IssueRun(env, [], setup, accountUrl, values);
    var k :| ClosedAt(env.world, ending.trace, 0, k)
             && ending.trace == ending.trace[..k] + Announcements(setup, ending.leaf.value, values);
    AnnouncementsQuiet(setup, ending.leaf.value, values);
    CleanThrough(env.world, ending.trace, k, Announcements(setup, ending.leaf.value, values));
  }

  lemma NothingCalled(world: World)
    ensures Successes(world, []) == Cleaned([])
  {
  }

  lemma EmptyKeys(records: Records)
    ensures records == map[] <==> records.Keys == {}
  {
  }

  // ---------------------------------------------------------------- what the provider keeps

  /** The records at the provider after these calls, none to begin with: a deprovision asks for
      the deletion of the record it finds tracked. */
  function Provided(h: Tracker, t: Trace): set<Record> {
    if t == [] then {}
    else
      var before, last := Provided(h, t[..|t| - 1]), t[|t| - 1];
      match last
      case Provision(p) =>
        if p.handler == h.handler && !h.outcome(t).NotCreated? then before + {h.recordOf(SlotOf(p))} else before
      case Deprovision(p) =>
        var tracked := Tracked(h, t[..|t| - 1]);
        if p.handler == h.handler && SlotOf(p) in tracked && h.deletes(t) then before - {tracked[SlotOf(p)]} else before
      case _ => before
  }

  /** The records the provider did delete. */
  function Deleted(h: Tracker, t: Trace): set<Record> {
    if t == [] then {}
    else
      var before, last := Deleted(h, t[..|t| - 1]), t[|t| - 1];
      if last.Deprovision? && last.prepared.handler == h.handler
         && SlotOf(last.prepared) in Tracked(h, t[..|t| - 1]) && h.deletes(t)
      then before + {h.recordOf(SlotOf(last.prepared))} else before
  }

  function RecordsOf(h: Tracker, slots: set<Slot>): set<Record> {
    set slot | slot in slots :: h.recordOf(slot)
  }

  /** The slots for which the handler created a record. */
  function Created(world: World, h: Tracker, t: Trace): set<Slot> {
    Slots(h, Successes(world, t)) + Abandoned(h, t)
  }

  lemma {:induction false} TrackedRecords(h: Tracker, t: Trace)
    ensures forall slot :: slot in Tracked(h, t) ==> Tracked(h, t)[slot] == h.recordOf(slot)
  {
    if t != [] { TrackedRecords(h, t[..|t| - 1]); }
  }

  lemma {:induction false} NothingDeleted(h: Tracker, t: Trace)
    requires NoDeprovision(t)
    ensures Deleted(h, t) == {}
  {
    if t != [] { NothingDeleted(h, t[..|t| - 1]); }
  }

  lemma RecordsOneMore(h: Tracker, slots: set<Slot>, slot: Slot)
    ensures RecordsOf(h, slots + {slot}) == RecordsOf(h, slots) + {h.recordOf(slot)}
  {
  }

  lemma CreatedOneMore(world: World, h: Tracker, t: Trace, p: Prepared)
    requires Behaves(world, h)
    ensures var after := t + [Provision(p)];
            Created(world, h, after) ==
            Created(world, h, t) + if p.handler == h.handler && !h.outcome(after).NotCreated? then {SlotOf(p)} else {}
  {
    hide Slots, Successes, Tracked, Abandoned, Behaves, Cleaned;
    var after := t + [Provision(p)];
    OneMore(world, t, Provision(p));
    SlotsOneMore(h, Successes(world, t), p);
    TrackedProvision(h, t, p);
    if p.handler == h.handler { BehavesAt(world, h, after); }
    assert Successes(world, t) + [] == Successes(world, t);
  }

  lemma CreatedSame(world: World, h: Tracker, t: Trace, effect: Effect)
    requires !effect.Provision?
    ensures Created(world, h, t + [effect]) == Created(world, h, t)
  {
    hide Slots;
    OneMore(world, t, effect);
    assert (t + [effect])[..|t|] == t;
    assert Successes(world, t) + [] == Successes(world, t);
  }

  /** What the provider keeps: what was created, apart from what it deleted. */
  lemma {:induction false} ProvidedExact(world: World, h: Tracker, t: Trace)
    requires Behaves(world, h) && ProvisionsFirst(t)
    ensures Provided(h, t) == RecordsOf(h, Created(world, h, t)) - Deleted(h, t)
  {
    hide Behaves, Created, RecordsOf;
    if t == [] {
      NothingCreated(world, h);
    } else {
      var front, last := t[..|t| - 1], t[|t| - 1];
      assert t == front + [last];
      ProvidedExact(world, h, front);
      TrackedRecords(h, front);
      if last.Provision? {
        NothingDeleted(h, front);
        CreatedOneMore(world, h, front, last.prepared);
        RecordsOneMore(h, Created(world, h, front), SlotOf(last.prepared));
        assert Created(world, h, front) + {} == Created(world, h, front);
      } else {
        CreatedSame(world, h, front, last);
      }
    }
  }

  lemma NothingCreated(world: World, h: Tracker)
    ensures Created(world, h, []) == {} && RecordsOf(h, {}) == {} && Slots(h, []) == {}
  {
  }

  /** Every deletion that is asked for is done. */
  predicate AllDelete(h: Tracker, t: Trace) {
    forall k: nat :: 0 < k <= |t| && t[k - 1].Deprovision? ==> h.deletes(t[..k])
  }

  lemma AllDeleteFront(h: Tracker, t: Trace)
    requires AllDelete(h, t) && t != []
    ensures AllDelete(h, t[..|t| - 1]) && (t[|t| - 1].Deprovision? ==> h.deletes(t))
  {
    var front := t[..|t| - 1];
    assert t[..|t|] == t;
    forall k: nat | 0 < k <= |front| && front[k - 1].Deprovision? ensures h.deletes(front[..k]) {
      assert front[..k] == t[..k];
    }
  }

  /** Then exactly the records created for a slot that was deprovisioned are deleted. */
  lemma {:induction false} DeletedWhenAll(world: World, h: Tracker, t: Trace)
    requires Behaves(world, h) && ProvisionsFirst(t) && AllDelete(h, t)
    ensures Deleted(h, t) == RecordsOf(h, Created(world, h, t) * Slots(h, Cleaned(t)))
  {
    hide Behaves, Created, RecordsOf, AllDelete, Slots;
    if t == [] {
      NothingCreated(world, h);
      assert {} * Slots(h, Cleaned(t)) == {};
    } else {
      var front, last := t[..|t| - 1], t[|t| - 1];
      assert t == front + [last];
      AllDeleteFront(h, t);
      DeletedWhenAll(world, h, front);
      OneMore(world, front, last);
      if last.Provision? {
        NoneCleaned(front);
        NothingDeleted(h, t);
        NothingCreated(world, h);
        assert Created(world, h, t) * {} == {};
      } else if last.Deprovision? {
        CreatedSame(world, h, front, last);
        SlotsOneMore(h, Cleaned(front), last.prepared);
        DeprovisionDeletes(world, h, front, last.prepared);
      } else {
        CreatedSame(world, h, front, last);
        assert Cleaned(front) + [] == Cleaned(front);
      }
    }
  }

  lemma DeprovisionDeletes(world: World, h: Tracker, t: Trace, p: Prepared)
    requires Behaves(world, h) && ProvisionsFirst(t) && h.deletes(t + [Deprovision(p)])
    requires Deleted(h, t) == RecordsOf(h, Created(world, h, t) * Slots(h, Cleaned(t)))
    ensures Deleted(h, t + [Deprovision(p)]) ==
            RecordsOf(h, Created(world, h, t)
                         * (Slots(h, Cleaned(t)) + if p.handler == h.handler then {SlotOf(p)} else {}))
  {
    hide Behaves, Slots, Successes, Cleaned, Abandoned, RecordsOf, Tracked;
    var created, cleaned, slot := Created(world, h, t), Slots(h, Cleaned(t)), SlotOf(p);
    assert (t + [Deprovision(p)])[..|t|] == t;
    TrackedExact(world, h, t);
    if p.handler == h.handler {
      if slot in Tracked(h, t) {
        assert created * (cleaned + {slot}) == created * cleaned + {slot};
        RecordsOneMore(h, created * cleaned, slot);
      } else {
        assert created * (cleaned + {slot}) == created * cleaned;
      }
    } else {
      assert cleaned + {} == cleaned;
    }
  }

  /** What the DNS provider keeps after `issue`, if it had nothing: every record created that it
      did not delete. The handler forgets a record before it asks for the deletion, so after a
      successful `issue` it tracks none of them; the provider then keeps nothing exactly if it
      deleted every record created, as it does when no deletion raises. */
  lemma ProviderAfterIssue(env: Env, h: Tracker, setup: Setup, accountUrl: Option<string>, values: seq<Value>)
    requires Behaves(env.world, h)
    ensures var ending := IssueRun(env, [], setup, accountUrl, values);
            var t, created := ending.trace, RecordsOf(h, Created(env.world, h, ending.trace));
            && Provided(h, t) == created - Deleted(h, t)
            && (Provided(h, t) == {} <==> created <= Deleted(h, t))
            && (ending.leaf.Some? ==> Tracked(h, t) == map[] && (AllDelete(h, t) ==> Provided(h, t) == {}))
  {
    hide IssueRun, Behaves, Slots, Successes, Cleaned, Abandoned, Tracked, Phased, ProvisionsFirst, CancelledEarly,
      Created, RecordsOf, AllDelete, Provided, Deleted;
    var ending := IssueRun(env, [], setup, accountUrl, values);
    var t := ending.trace;
    IssuePhase(env, setup, accountUrl, values);
    PhasedMeans(env.world, h, t, ending.leaf.Some?);
    ProvidedExact(env.world, h, t);
    RecordsAfterIssue(env, h, setup, accountUrl, values);
    KeptNothing(RecordsOf(h, Created(env.world, h, t)), Deleted(h, t));
    if ending.leaf.Some? {
      SuccessClean(env, setup, accountUrl, values);
      CreatedOnSuccess(env.world, h, t);
      if AllDelete(h, t) { DeletedWhenAll(env.world, h, t); }
    }
  }

  lemma KeptNothing(created: set<Record>, deleted: set<Record>)
    ensures created - deleted == {} <==> created <= deleted
  {
    if created - deleted == {} {
      forall record | record in created ensures record in deleted { assert record !in created - deleted; }
    }
  }

  /** With every created slot deprovisioned the intersection is everything. */
  lemma CreatedOnSuccess(world: World, h: Tracker, t: Trace)
    requires Successes(world, t) == Cleaned(t) && Abandoned(h, t) == {}
    ensures Created(world, h, t) * Slots(h, Cleaned(t)) == Created(world, h, t)
  {
    hide Slots, Successes, Cleaned, Abandoned;
  }
}
