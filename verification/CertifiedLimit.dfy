/** How many certificates a limiter lets through: it counts records, and an issuance that fails
    after its certificate was signed leaves none. */
module CertifiedLimit {
  import opened RateLimit

  /** A certificate signed for names under these registered domains. */
  datatype Cert = Cert(registered: set<string>, at: Time)

  /** An operation on the limiter, or the signing of the certificate of an issuance in flight. */
  datatype Event =
    | Limited(op: Op)
    | Sign(id: nat, at: Time)

  /** The limiter, the certificates of issuances still in flight, all certificates, and those of
      issuances that failed after the signature. */
  datatype Log = Log(limiter: Limiter, held: map<nat, Cert>, certs: seq<Cert>, lost: seq<Cert>)

  function Advance(limit: int, window: Time, s: Log, e: Event): Log {
    match e
    case Limited(op) =>
      var limiter := Apply(limit, window, s.limiter, op);
      if op.Check? then s.(limiter := limiter)
      else if op.id in limiter.inFlight then s.(limiter := limiter)
      else
        var lost := if op.Abandon? && op.id in s.held then s.lost + [s.held[op.id]] else s.lost;
        Log(limiter, s.held - {op.id}, s.certs, lost)
    case Sign(id, at) =>
      if id !in s.limiter.inFlight || id in s.held then s
      else
        var cert := Cert(s.limiter.inFlight[id], at);
        s.(held := s.held[id := cert], certs := s.certs + [cert])
  }

  function RunLog(limit: int, window: Time, events: seq<Event>): Log {
    if events == [] then Log(Limiter([], map[]), map[], [], [])
    else Advance(limit, window, RunLog(limit, window, events[..|events| - 1]), events[|events| - 1])
  }

  /** The operations on the limiter among these events. */
  function OpsOf(events: seq<Event>): seq<Op> {
    if events == [] then []
    else
      var before, last := OpsOf(events[..|events| - 1]), events[|events| - 1];
      if last.Limited? then before + [last.op] else before
  }

  function TimeOf(e: Event): Time {
    if e.Limited? then e.op.at else e.at
  }

  predicate Forward(events: seq<Event>) {
    forall i, j :: 0 <= i < j < |events| ==> TimeOf(events[i]) <= TimeOf(events[j])
  }

  predicate Counts(cert: Cert, rd: string, from: Time, to: Time) {
    rd in cert.registered && from <= cert.at <= to
  }

  /** The certificates of a registered domain signed in a closed interval. */
  function SignedIn(certs: seq<Cert>, rd: string, from: Time, to: Time): nat {
    if certs == [] then 0
    else
      var last := certs[|certs| - 1];
      SignedIn(certs[..|certs| - 1], rd, from, to) + if Counts(last, rd, from, to) then 1 else 0
  }

  /** The issuances in flight that have such a certificate. */
  function HeldIn(held: map<nat, Cert>, rd: string, from: Time, to: Time): set<nat> {
    set id | id in held && Counts(held[id], rd, from, to)
  }

  // ---------------------------------------------------------------- every certificate is accounted for

  /** Certificates are held by the issuances in flight they were signed for. */
  predicate HeldInFlight(s: Log, now: Time) {
    forall id :: id in s.held ==>
      id in s.limiter.inFlight && s.held[id].registered == s.limiter.inFlight[id] && s.held[id].at <= now
  }

  /** While the interval is open: a certificate in it is recorded in it, held, or lost. */
  predicate AccountedFor(s: Log, rd: string, from: Time, to: Time) {
    SignedIn(s.certs, rd, from, to)
    <= CountIn(s.limiter.log, rd, from, to) + |HeldIn(s.held, rd, from, to)| + SignedIn(s.lost, rd, from, to)
  }

  lemma OneMoreSigned(certs: seq<Cert>, cert: Cert, rd: string, from: Time, to: Time)
    ensures SignedIn(certs + [cert], rd, from, to) ==
            SignedIn(certs, rd, from, to) + if Counts(cert, rd, from, to) then 1 else 0
  {
    assert (certs + [cert])[..|certs|] == certs;
  }

  lemma HeldWithout(held: map<nat, Cert>, id: nat, rd: string, from: Time, to: Time)
    ensures HeldIn(held - {id}, rd, from, to) == HeldIn(held, rd, from, to) - {id}
    ensures id in HeldIn(held, rd, from, to) <==> id in held && Counts(held[id], rd, from, to)
    ensures |HeldIn(held - {id}, rd, from, to)| ==
            |HeldIn(held, rd, from, to)| - if id in HeldIn(held, rd, from, to) then 1 else 0
  {
    hide Counts;
  }

  lemma HeldWith(held: map<nat, Cert>, id: nat, cert: Cert, rd: string, from: Time, to: Time)
    requires id !in held
    ensures |HeldIn(held[id := cert], rd, from, to)| ==
            |HeldIn(held, rd, from, to)| + if Counts(cert, rd, from, to) then 1 else 0
  {
    hide Counts;
    assert HeldIn(held[id := cert], rd, from, to) ==
           HeldIn(held, rd, from, to) + if Counts(cert, rd, from, to) then {id} else {};
  }

  /** Nothing but the end of an issuance takes it out of flight. */
  lemma ApplyFlight(limit: int, window: Time, s: Limiter, op: Op)
    ensures var t := Apply(limit, window, s, op);
            && (forall id :: id in s.inFlight && (id != op.id || op.Check?) ==>
                  id in t.inFlight && t.inFlight[id] == s.inFlight[id])
            && (op.id in s.inFlight && op.id in t.inFlight ==> t == s)
  {
    hide Allows, Lists, RecordsFor;
  }

  lemma HeldKept(limit: int, window: Time, s: Log, e: Event, before: Time)
    requires HeldInFlight(s, before) && before <= TimeOf(e)
    ensures HeldInFlight(Advance(limit, window, s, e), TimeOf(e))
  {
    hide Apply;
    if e.Limited? { ApplyFlight(limit, window, s.limiter, e.op); }
  }

  /** What ending an issuance records under a domain of the interval. */
  lemma EndRecords(limit: int, window: Time, s: Limiter, op: Op, rd: string, from: Time, to: Time)
    requires !op.Check? && from <= op.at <= to
    ensures var t := Apply(limit, window, s, op);
            && CountIn(t.log, rd, from, to) >= CountIn(s.log, rd, from, to)
            && (op.Record? && op.id in s.inFlight && rd in s.inFlight[op.id] && op.id !in t.inFlight ==>
                  CountIn(t.log, rd, from, to) == CountIn(s.log, rd, from, to) + 1)
            && (op.Abandon? ==> t.log == s.log)
  {
    hide CountIn, RecordsFor, Allows;
    if op.Record? && op.id in s.inFlight && Lists(op.order, s.inFlight[op.id]) {
      CountAppend(s.log, RecordsFor(op.order, op.domains, op.at), rd, from, to);
      CountOfRecords(op.order, op.domains, op.at, rd, from, to);
    }
  }

  lemma AccountedStep(limit: int, window: Time, s: Log, e: Event, before: Time, rd: string, from: Time, to: Time)
    requires HeldInFlight(s, before) && before <= TimeOf(e) <= to && AccountedFor(s, rd, from, to)
    ensures AccountedFor(Advance(limit, window, s, e), rd, from, to)
  {
    hide Apply, CountIn, SignedIn, HeldIn, Counts;
    match e
    case Sign(id, at) =>
      if id in s.limiter.inFlight && id !in s.held {
        var cert := Cert(s.limiter.inFlight[id], at);
        OneMoreSigned(s.certs, cert, rd, from, to);
        HeldWith(s.held, id, cert, rd, from, to);
      }
    case Limited(op) =>
      ApplyFlight(limit, window, s.limiter, op);
      if op.Check? {
        CheckRecords(limit, window, s.limiter, op);
      } else if op.id in Apply(limit, window, s.limiter, op).inFlight {
        StillInFlight(limit, window, s.limiter, op);
      } else {
        EndAccounted(limit, window, s, op, before, rd, from, to);
      }
  }

  lemma CheckRecords(limit: int, window: Time, s: Limiter, op: Op)
    requires op.Check?
    ensures Apply(limit, window, s, op).log == s.log
  {
    hide Allows;
  }

  lemma StillInFlight(limit: int, window: Time, s: Limiter, op: Op)
    requires !op.Check? && op.id in Apply(limit, window, s, op).inFlight
    ensures Apply(limit, window, s, op) == s
  {
    hide Lists, RecordsFor;
  }

  lemma EndAccounted(limit: int, window: Time, s: Log, op: Op, before: Time, rd: string, from: Time, to: Time)
    requires HeldInFlight(s, before) && before <= op.at <= to && AccountedFor(s, rd, from, to)
    requires !op.Check? && op.id !in Apply(limit, window, s.limiter, op).inFlight
    ensures AccountedFor(Advance(limit, window, s, Limited(op)), rd, from, to)
  {
    hide Apply, CountIn, SignedIn, HeldIn;
    HeldWithout(s.held, op.id, rd, from, to);
    if op.at < from {
      EndBefore(limit, window, s.limiter, op, rd, from, to);
    } else {
      EndRecords(limit, window, s.limiter, op, rd, from, to);
    }
    if op.id in s.held { OneMoreSigned(s.lost, s.held[op.id], rd, from, to); }
  }

  lemma EndBefore(limit: int, window: Time, s: Limiter, op: Op, rd: string, from: Time, to: Time)
    requires !op.Check? && op.at < from
    ensures CountIn(Apply(limit, window, s, op).log, rd, from, to) >= CountIn(s.log, rd, from, to)
  {
    hide CountIn, RecordsFor, Allows;
    if op.Record? && op.id in s.inFlight && Lists(op.order, s.inFlight[op.id]) {
      CountAppend(s.log, RecordsFor(op.order, op.domains, op.at), rd, from, to);
    }
  }

  // ---------------------------------------------------------------- the bound

  /** Certificates held are among the issuances in flight for the domain. */
  lemma HeldArePending(s: Log, now: Time, rd: string, from: Time, to: Time)
    requires HeldInFlight(s, now)
    ensures |HeldIn(s.held, rd, from, to)| <= |Pending(s.limiter.inFlight, rd)|
  {
    Subset(HeldIn(s.held, rd, from, to), Pending(s.limiter.inFlight, rd));
  }

  lemma {:induction false} LimiterOf(limit: int, window: Time, events: seq<Event>)
    ensures RunLog(limit, window, events).limiter == RunOps(limit, window, OpsOf(events))
  {
    hide Apply;
    if events != [] {
      var front, last := events[..|events| - 1], events[|events| - 1];
      LimiterOf(limit, window, front);
      if last.Limited? { RunStep(limit, window, OpsOf(front), last.op); }
    }
  }

  /** The operations keep the order of time, and the last of them is no later than the last
      event. */
  lemma {:induction false} OpsForwardToo(events: seq<Event>)
    requires Forward(events)
    ensures OpsForward(OpsOf(events))
    ensures events != [] && OpsOf(events) != [] ==>
              OpsOf(events)[|OpsOf(events)| - 1].at <= TimeOf(events[|events| - 1])
  {
    if events != [] {
      var front, last := events[..|events| - 1], events[|events| - 1];
      OpsForwardToo(front);
      var ops := OpsOf(front);
      if front != [] { assert TimeOf(front[|front| - 1]) <= TimeOf(last); }
      if ops != [] {
        assert front != [];
        assert forall i :: 0 <= i < |ops| ==> ops[i].at <= ops[|ops| - 1].at;
      }
    }
  }

  lemma {:induction false} HeldAlways(limit: int, window: Time, events: seq<Event>, now: Time)
    requires Forward(events) && (events != [] ==> TimeOf(events[|events| - 1]) <= now)
    ensures HeldInFlight(RunLog(limit, window, events), now)
  {
    hide Advance;
    if events != [] {
      var front, last := events[..|events| - 1], events[|events| - 1];
      HeldAlways(limit, window, front, TimeOf(last));
      HeldKept(limit, window, RunLog(limit, window, front), last, TimeOf(last));
      HeldLater(RunLog(limit, window, events), TimeOf(last), now);
    }
  }

  lemma HeldLater(s: Log, before: Time, now: Time)
    requires HeldInFlight(s, before) && before <= now
    ensures HeldInFlight(s, now)
  {
  }

  lemma {:induction false} AccountedAlways(limit: int, window: Time, events: seq<Event>, rd: string, from: Time,
                                           to: Time)
    requires Forward(events) && (events != [] ==> TimeOf(events[|events| - 1]) <= to)
    ensures AccountedFor(RunLog(limit, window, events), rd, from, to)
  {
    hide Advance, CountIn, SignedIn, HeldIn, HeldInFlight;
    if events == [] {
      NothingAccounted(rd, from, to);
    } else {
      var front, last := events[..|events| - 1], events[|events| - 1];
      if front != [] { assert TimeOf(front[|front| - 1]) <= TimeOf(last); }
      AccountedAlways(limit, window, front, rd, from, to);
      HeldAlways(limit, window, front, TimeOf(last));
      AccountedStep(limit, window, RunLog(limit, window, front), last, TimeOf(last), rd, from, to);
    }
  }

  lemma NothingAccounted(rd: string, from: Time, to: Time)
    ensures AccountedFor(Log(Limiter([], map[]), map[], [], []), rd, from, to)
  {
  }

  /** Once the interval is over nothing is signed in it any more, and nothing lost is found. */
  lemma ClosedStep(limit: int, window: Time, s: Log, e: Event, rd: string, from: Time, to: Time)
    requires TimeOf(e) > to
    ensures var t := Advance(limit, window, s, e);
            && SignedIn(t.certs, rd, from, to) == SignedIn(s.certs, rd, from, to)
            && SignedIn(t.lost, rd, from, to) >= SignedIn(s.lost, rd, from, to)
  {
    hide Apply, SignedIn;
    match e
    case Sign(id, at) =>
      if id in s.limiter.inFlight { OneMoreSigned(s.certs, Cert(s.limiter.inFlight[id], at), rd, from, to); }
    case Limited(op) =>
      if op.id in s.held { OneMoreSigned(s.lost, s.held[op.id], rd, from, to); }
  }

  /** With at most k issuances in flight, no closed window has more certificates of a registered
      domain signed in it than limit + k - 1, plus those of issuances that failed after the
      signature: without such failures the certificates are bounded like the records. */
  lemma {:induction false} CertificatesBound(limit: nat, window: Time, events: seq<Event>, rd: string, from: Time,
                                             k: nat)
    requires Forward(events) && k >= 1 && AtMostInFlight(limit, window, OpsOf(events), k)
    ensures var s := RunLog(limit, window, events);
            SignedIn(s.certs, rd, from, from + window) <= limit + k - 1 + SignedIn(s.lost, rd, from, from + window)
  {
    hide Advance, CountIn, SignedIn, HeldIn, HeldInFlight, RunOps, Pending, OpsForward;
    var to := from + window;
    if events == [] || TimeOf(events[|events| - 1]) <= to {
      var now := if events == [] then from else TimeOf(events[|events| - 1]);
      AccountedAlways(limit, window, events, rd, from, to);
      HeldAlways(limit, window, events, now);
      HeldArePending(RunLog(limit, window, events), now, rd, from, to);
      LimiterOf(limit, window, events);
      OpenBound(limit, window, events, rd, from, k);
    } else {
      var front, last := events[..|events| - 1], events[|events| - 1];
      FrontInFlight(limit, window, events, k);
      CertificatesBound(limit, window, front, rd, from, k);
      ClosedStep(limit, window, RunLog(limit, window, front), last, rd, from, to);
    }
  }

  /** Records and issuances in flight together, while the window is open. */
  lemma OpenBound(limit: nat, window: Time, events: seq<Event>, rd: string, from: Time, k: nat)
    requires Forward(events) && k >= 1 && AtMostInFlight(limit, window, OpsOf(events), k)
    requires events != [] ==> TimeOf(events[|events| - 1]) <= from + window
    ensures var s := RunOps(limit, window, OpsOf(events));
            CountIn(s.log, rd, from, from + window) + |Pending(s.inFlight, rd)| <= limit + k - 1
  {
    hide CountIn, Pending, AtMostInFlight, Apply;
    OpsForwardToo(events);
    BoundOverRun(limit, window, OpsOf(events), rd, from, k);
    if OpsOf(events) == [] { NothingInFlight(rd, from, from + window); }
  }

  lemma NothingInFlight(rd: string, from: Time, to: Time)
    ensures CountIn([], rd, from, to) == 0 && Pending(map[], rd) == {}
  {
  }

  lemma FrontInFlight(limit: nat, window: Time, events: seq<Event>, k: nat)
    requires events != [] && AtMostInFlight(limit, window, OpsOf(events), k)
    ensures AtMostInFlight(limit, window, OpsOf(events[..|events| - 1]), k)
  {
    hide RunOps;
    var ops, front := OpsOf(events), OpsOf(events[..|events| - 1]);
    assert front <= ops;
    assert forall i :: 0 <= i <= |front| ==> front[..i] == ops[..i];
  }

  // ---------------------------------------------------------------- without a bound

  /** One issuance after the other, each failing after its certificate was signed. */
  function Failing(n: nat): seq<Event> {
    if n == 0 then []
    else Failing(n - 1) + [Limited(Check(0, {"a"}, 0))] + [Sign(0, 0)] + [Limited(Abandon(0, 0))]
  }

  lemma RunOneMore(limit: int, window: Time, events: seq<Event>, e: Event)
    ensures RunLog(limit, window, events + [e]) == Advance(limit, window, RunLog(limit, window, events), e)
  {
    assert (events + [e])[..|events|] == events;
  }

  /** Any number of certificates is signed in one window when each issuance fails afterwards,
      although one is in flight at a time and the limiter never has a record. */
  lemma {:induction false} LostUnbounded(limit: nat, window: Time, n: nat)
    requires limit >= 1 && window >= 0
    ensures var s := RunLog(limit, window, Failing(n));
            && Forward(Failing(n)) && s.limiter == Limiter([], map[]) && s.held == map[]
            && SignedIn(s.certs, "a", 0, window) == n == SignedIn(s.lost, "a", 0, window)
  {
    hide Advance, SignedIn, RunLog;
    AllAtOnce(n);
    if n == 0 {
      NothingSigned(limit, window);
    } else {
      LostUnbounded(limit, window, n - 1);
      var before, s := Failing(n - 1), RunLog(limit, window, Failing(n - 1));
      var check, sign, abandon := Limited(Check(0, {"a"}, 0)), Sign(0, 0), Limited(Abandon(0, 0));
      RunOneMore(limit, window, before, check);
      RunOneMore(limit, window, before + [check], sign);
      RunOneMore(limit, window, before + [check] + [sign], abandon);
      FailsOnce(limit, window, s);
      OneMoreSigned(s.certs, Cert({"a"}, 0), "a", 0, window);
      OneMoreSigned(s.lost, Cert({"a"}, 0), "a", 0, window);
    }
  }

  lemma {:induction false} AllAtOnce(n: nat)
    ensures forall i :: 0 <= i < |Failing(n)| ==> TimeOf(Failing(n)[i]) == 0
  {
    if n > 0 { AllAtOnce(n - 1); }
  }

  lemma NothingSigned(limit: nat, window: Time)
    ensures RunLog(limit, window, []) == Log(Limiter([], map[]), map[], [], []) && SignedIn([], "a", 0, window) == 0
  {
  }

  lemma FailsOnce(limit: nat, window: Time, s: Log)
    requires limit >= 1 && s.limiter == Limiter([], map[]) && s.held == map[]
    ensures var checked := Advance(limit, window, s, Limited(Check(0, {"a"}, 0)));
            var signed := Advance(limit, window, checked, Sign(0, 0));
            Advance(limit, window, signed, Limited(Abandon(0, 0))) ==
            Log(Limiter([], map[]), map[], s.certs + [Cert({"a"}, 0)], s.lost + [Cert({"a"}, 0)])
  {
    var flight: map<nat, set<string>> := map[0 := {"a"}];
    var held: map<nat, Cert> := map[0 := Cert({"a"}, 0)];
    assert flight - {0} == map[] && held - {0} == map[];
  }
}
