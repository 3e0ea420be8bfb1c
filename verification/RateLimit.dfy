/** Issuance records and the sliding-window limit on them. */
module RateLimit {
  import opened Text

  /** Time in microseconds. */
  type Time = int

  const WEEK: Time := 7 * 24 * 3600 * 1_000_000

  datatype IssuanceRecord = IssuanceRecord(registeredDomain: string, domains: seq<string>, issuedAt: Time)

  /** The filter of `get_issuances`. */
  function Issuances(log: seq<IssuanceRecord>, domain: string, since: Time): seq<IssuanceRecord> {
    if log == [] then []
    else
      var rest, last := Issuances(log[..|log| - 1], domain, since), log[|log| - 1];
      if last.registeredDomain == domain && last.issuedAt >= since then rest + [last] else rest
  }

  /** The records not older than the cutoff. */
  function Pruned(log: seq<IssuanceRecord>, cutoff: Time): seq<IssuanceRecord> {
    if log == [] then []
    else
      var rest, last := Pruned(log[..|log| - 1], cutoff), log[|log| - 1];
      if last.issuedAt >= cutoff then rest + [last] else rest
  }

  // ---------------------------------------------------------------- the stores

  /** `MemoryRateLimitStore`. */
  class MemoryRateLimitStore {
    var records: seq<IssuanceRecord>

    constructor ()
      ensures records == []
    {
      records := [];
    }

    method RecordIssuance(record: IssuanceRecord)
      modifies this
      ensures records == old(records) + [record]
    {
      records := records + [record];
    }

    method GetIssuances(domain: string, since: Time) returns (found: seq<IssuanceRecord>)
      ensures found == Issuances(records, domain, since)
    {
      found := [];
      for k := 0 to |records|
        invariant found == Issuances(records[..k], domain, since)
      {
        assert records[..k + 1][..k] == records[..k];
        if records[k].registeredDomain == domain && records[k].issuedAt >= since {
          found := found + [records[k]];
        }
      }
      assert records[..|records|] == records;
    }
  }

  /** `FileRateLimitStore`: `file` is what the JSON file holds, with a missing or unreadable
      file read as no records. */
  class FileRateLimitStore {
    var file: seq<IssuanceRecord>

    constructor ()
      ensures file == []
    {
      file := [];
    }

    /** `record_issuance`: load, append, drop what is older than a week, save. */
    method RecordIssuance(record: IssuanceRecord, now: Time)
      modifies this
      ensures file == Pruned(old(file) + [record], now - WEEK)
    {
      var records := file + [record];
      var kept: seq<IssuanceRecord> := [];
      for k := 0 to |records|
        invariant kept == Pruned(records[..k], now - WEEK)
      {
        assert records[..k + 1][..k] == records[..k];
        if records[k].issuedAt >= now - WEEK {
          kept := kept + [records[k]];
        }
      }
      assert records[..|records|] == records;
      file := kept;
    }

    method GetIssuances(domain: string, since: Time) returns (found: seq<IssuanceRecord>)
      ensures found == Issuances(file, domain, since)
    {
      found := [];
      for k := 0 to |file|
        invariant found == Issuances(file[..k], domain, since)
      {
        assert file[..k + 1][..k] == file[..k];
        if file[k].registeredDomain == domain && file[k].issuedAt >= since {
          found := found + [file[k]];
        }
      }
      assert file[..|file|] == file;
    }
  }

  // ---------------------------------------------------------------- pruning is invisible

  /** A recorded issuance and the clock when the file was rewritten. */
  datatype Write = Write(record: IssuanceRecord, at: Time)

  function MemoryLog(writes: seq<Write>): seq<IssuanceRecord> {
    if writes == [] then [] else MemoryLog(writes[..|writes| - 1]) + [writes[|writes| - 1].record]
  }

  function FileLog(writes: seq<Write>): seq<IssuanceRecord> {
    if writes == [] then []
    else Pruned(FileLog(writes[..|writes| - 1]) + [writes[|writes| - 1].record], writes[|writes| - 1].at - WEEK)
  }

  predicate ClockForward(writes: seq<Write>) {
    forall i, j :: 0 <= i < j < |writes| ==> writes[i].at <= writes[j].at
  }

  lemma {:induction false} PrunedAppend(log: seq<IssuanceRecord>, more: seq<IssuanceRecord>, cutoff: Time)
    ensures Pruned(log + more, cutoff) == Pruned(log, cutoff) + Pruned(more, cutoff)
  {
    if more == [] {
      assert log + more == log;
    } else {
      PrunedAppend(log, more[..|more| - 1], cutoff);
      assert (log + more)[..|log + more| - 1] == log + more[..|more| - 1];
    }
  }

  lemma {:induction false} PrunedTwice(log: seq<IssuanceRecord>, first: Time, second: Time)
    requires first <= second
    ensures Pruned(Pruned(log, first), second) == Pruned(log, second)
  {
    if log != [] {
      var front, last := log[..|log| - 1], log[|log| - 1];
      PrunedTwice(front, first, second);
      PrunedAppend(Pruned(front, first), [last], second);
      assert [last][..0] == [];
    }
  }

  lemma {:induction false} IssuancesOfPruned(log: seq<IssuanceRecord>, domain: string, since: Time, cutoff: Time)
    requires cutoff <= since
    ensures Issuances(Pruned(log, cutoff), domain, since) == Issuances(log, domain, since)
  {
    if log != [] {
      var front, last := log[..|log| - 1], log[|log| - 1];
      IssuancesOfPruned(front, domain, since, cutoff);
      if last.issuedAt >= cutoff {
        assert (Pruned(front, cutoff) + [last])[..|Pruned(front, cutoff)|] == Pruned(front, cutoff);
      }
    }
  }

  /** The file holds the log pruned at the latest write. */
  lemma {:induction false} FileIsPrunedLog(writes: seq<Write>)
    requires ClockForward(writes) && writes != []
    ensures FileLog(writes) == Pruned(MemoryLog(writes), writes[|writes| - 1].at - WEEK)
  {
    hide Pruned;
    var front, last := writes[..|writes| - 1], writes[|writes| - 1];
    if front == [] {
      assert MemoryLog(writes) == [last.record];
      assert FileLog(front) + [last.record] == [last.record];
    } else {
      FileIsPrunedLog(front);
      var earlier := front[|front| - 1].at - WEEK;
      PrunedAppend(FileLog(front), [last.record], last.at - WEEK);
      PrunedTwice(MemoryLog(front), earlier, last.at - WEEK);
      PrunedAppend(MemoryLog(front), [last.record], last.at - WEEK);
    }
  }

  /** A tracker's query for this window at a later time gets the same answer from both. */
  predicate Agree(writes: seq<Write>, domain: string, now: Time, window: Time) {
    Issuances(FileLog(writes), domain, now - window) == Issuances(MemoryLog(writes), domain, now - window)
  }

  predicate Queried(writes: seq<Write>, now: Time) {
    ClockForward(writes) && (writes != [] ==> writes[|writes| - 1].at <= now)
  }

  /** The pruned file answers every query of every run like the unpruned log exactly when
      the window is at most the week that is kept. */
  lemma PruningInvisible(window: Time)
    ensures (forall writes: seq<Write>, domain: string, now: Time :: Queried(writes, now) ==>
            Agree(writes, domain, now, window))
            <==> window <= 7 * 24 * 60 * 60 * 1_000_000
  {
    if window <= WEEK {
      forall writes: seq<Write>, domain: string, now: Time | Queried(writes, now)
        ensures Agree(writes, domain, now, window)
      {
        if writes != [] {
          FileIsPrunedLog(writes);
          IssuancesOfPruned(MemoryLog(writes), domain, now - window, writes[|writes| - 1].at - WEEK);
        }
      }
    } else {
      var first, second := IssuanceRecord("a", [], 0), IssuanceRecord("a", [], WEEK + 1);
      var writes := [Write(first, 0), Write(second, WEEK + 1)];
      LongWindowForgets(window);
      assert Queried(writes, WEEK + 1) && !Agree(writes, "a", WEEK + 1, window);
    }
  }

  /** A record a week and a microsecond old is gone after the next write, although a longer
      window still counts it. */
  lemma LongWindowForgets(window: Time)
    requires window > WEEK
    ensures var writes := [Write(IssuanceRecord("a", [], 0), 0), Write(IssuanceRecord("a", [], WEEK + 1), WEEK + 1)];
            && |Issuances(MemoryLog(writes), "a", WEEK + 1 - window)| == 2
            && |Issuances(FileLog(writes), "a", WEEK + 1 - window)| == 1
  {
    hide Issuances, Pruned;
    var first, second := IssuanceRecord("a", [], 0), IssuanceRecord("a", [], WEEK + 1);
    var writes, since := [Write(first, 0), Write(second, WEEK + 1)], WEEK + 1 - window;
    assert writes[..1] == [Write(first, 0)] && writes[..1][..0] == [];
    assert MemoryLog(writes[..1]) == [first] && [first] + [second] == [first, second];
    FileIsPrunedLog(writes);
    PrunedAppend([first], [second], 1);
    OneRecord(first, "a", since, 1);
    OneRecord(second, "a", since, 1);
    IssuancesAppend([first], [second], "a", since);
    assert FileLog(writes) == [] + [second] == [second];
  }

  lemma OneRecord(record: IssuanceRecord, domain: string, since: Time, cutoff: Time)
    ensures Pruned([record], cutoff) == if record.issuedAt >= cutoff then [record] else []
    ensures Issuances([record], domain, since) ==
            if record.registeredDomain == domain && record.issuedAt >= since then [record] else []
  {
    assert [record][..0] == [];
  }

  lemma {:induction false} IssuancesAppend(log: seq<IssuanceRecord>, more: seq<IssuanceRecord>, domain: string,
                                           since: Time)
    ensures Issuances(log + more, domain, since) == Issuances(log, domain, since) + Issuances(more, domain, since)
  {
    if more == [] {
      assert log + more == log;
    } else {
      IssuancesAppend(log, more[..|more| - 1], domain, since);
      assert (log + more)[..|log + more| - 1] == log + more[..|more| - 1];
    }
  }

  // ---------------------------------------------------------------- the tracker

  datatype Backend = MemoryBackend(memory: MemoryRateLimitStore) | FileBackend(stored: FileRateLimitStore)

  function LogOf(store: Backend): seq<IssuanceRecord>
    reads if store.MemoryBackend? then {store.memory as object} else {store.stored as object}
  {
    match store
    case MemoryBackend(memory) => memory.records
    case FileBackend(stored) => stored.file
  }

  function Registered(domains: seq<string>, registeredDomain: string -> string): set<string> {
    set d | d in domains :: Lower(registeredDomain(d))
  }

  /** The blocking condition of `check`. */
  predicate Allows(log: seq<IssuanceRecord>, registered: set<string>, since: Time, limit: int) {
    forall rd :: rd in registered ==> |Issuances(log, rd, since)| < limit
  }

  /** One record for each registered domain, all at the same time. */
  function RecordsFor(order: seq<string>, domains: seq<string>, at: Time): seq<IssuanceRecord> {
    if order == [] then []
    else RecordsFor(order[..|order| - 1], domains, at) + [IssuanceRecord(order[|order| - 1], domains, at)]
  }

  /** Each record has its registered domain, all the names, and the one time. */
  lemma {:induction false} RecordsListed(order: seq<string>, domains: seq<string>, at: Time, i: nat)
    requires i < |order|
    ensures |RecordsFor(order, domains, at)| == |order|
    ensures RecordsFor(order, domains, at)[i] == IssuanceRecord(order[i], domains, at)
  {
    if |order| > 1 { RecordsListed(order[..|order| - 1], domains, at, if i < |order| - 1 then i else 0); }
  }

  /** The order lists every member of the set once. */
  predicate Lists(order: seq<string>, registered: set<string>) {
    && (forall i :: 0 <= i < |order| ==> order[i] in registered)
    && (forall rd :: rd in registered ==> rd in order)
    && (forall i, j :: 0 <= i < j < |order| ==> order[i] != order[j])
  }

  /** What saving these records in turn leaves in the file; the i-th save reads the clock at
      `saves(i)`. */
  function FileAfter(file: seq<IssuanceRecord>, records: seq<IssuanceRecord>, saves: nat -> Time)
    : seq<IssuanceRecord>
  {
    if records == [] then file
    else
      var n := |records| - 1;
      Pruned(FileAfter(file, records[..n], saves) + [records[n]], saves(n) - WEEK)
  }

  // ---------------------------------------------------------------- counting by names

  /** A call of `record`: its names and time, the order its records were made in, and the clock
      at each save. */
  datatype Recording = Recording(domains: seq<string>, at: Time, order: seq<string>, saves: nat -> Time)

  /** Some name of the list counts towards the same limit as this name. */
  predicate CountsWith(registeredDomain: string -> string, domains: seq<string>, domain: string) {
    exists e :: e in domains && Lower(registeredDomain(e)) == Lower(registeredDomain(domain))
  }

  /** How many of these calls were made since then for a name that counts with this one. */
  function RecordedSince(registeredDomain: string -> string, calls: seq<Recording>, domain: string, since: Time): nat {
    if calls == [] then 0
    else
      var last := calls[|calls| - 1];
      RecordedSince(registeredDomain, calls[..|calls| - 1], domain, since)
      + if last.at >= since && CountsWith(registeredDomain, last.domains, domain) then 1 else 0
  }

  /** The order lists the registered domain of every name once, in lower case. */
  ghost predicate Orderly(registeredDomain: string -> string, call: Recording) {
    && (forall rd :: rd in call.order <==> exists d :: d in call.domains && Lower(registeredDomain(d)) == rd)
    && (forall i, j :: 0 <= i < j < |call.order| ==> call.order[i] != call.order[j])
  }

  /** What these calls leave in a memory store and in a file store. */
  function MemoryAfterCalls(calls: seq<Recording>): seq<IssuanceRecord> {
    if calls == [] then []
    else
      var last := calls[|calls| - 1];
      MemoryAfterCalls(calls[..|calls| - 1]) + RecordsFor(last.order, last.domains, last.at)
  }

  function FileAfterCalls(calls: seq<Recording>): seq<IssuanceRecord> {
    if calls == [] then []
    else
      var last := calls[|calls| - 1];
      FileAfter(FileAfterCalls(calls[..|calls| - 1]), RecordsFor(last.order, last.domains, last.at), last.saves)
  }

  /** The log is what these calls left. */
  ghost predicate LeftBy(registeredDomain: string -> string, onFile: bool, log: seq<IssuanceRecord>,
                         calls: seq<Recording>)
  {
    && (forall i :: 0 <= i < |calls| ==> Orderly(registeredDomain, calls[i]))
    && log == if onFile then FileAfterCalls(calls) else MemoryAfterCalls(calls)
  }

  function LastSave(call: Recording): Time {
    if call.order == [] then call.at else call.saves(|call.order| - 1)
  }

  /** The clock never went back during these calls, and it is now. */
  predicate CalledBefore(calls: seq<Recording>, now: Time) {
    && (forall i :: 0 <= i < |calls| ==>
          SavesFollow(calls[i].order, calls[i].at, calls[i].saves) && LastSave(calls[i]) <= now)
    && (forall i, j :: 0 <= i < j < |calls| ==> LastSave(calls[i]) <= calls[j].at)
  }

  lemma {:induction false} IssuancesOfRecords(order: seq<string>, domains: seq<string>, at: Time, rd: string,
                                              since: Time)
    requires forall i, j :: 0 <= i < j < |order| ==> order[i] != order[j]
    ensures |Issuances(RecordsFor(order, domains, at), rd, since)| == if rd in order && at >= since then 1 else 0
  {
    if order != [] {
      var front, last := order[..|order| - 1], order[|order| - 1];
      IssuancesOfRecords(front, domains, at, rd, since);
      var records := RecordsFor(order, domains, at);
      assert records[..|records| - 1] == RecordsFor(front, domains, at);
      assert rd in order <==> rd in front || rd == last;
      assert last !in front;
    }
  }

  /** The records found for a name's registered domain are as many as the calls made for a name
      that counts with it. */
  lemma {:induction false} MemoryCountsNames(registeredDomain: string -> string, calls: seq<Recording>,
                                             domain: string, since: Time)
    requires forall i :: 0 <= i < |calls| ==> Orderly(registeredDomain, calls[i])
    ensures |Issuances(MemoryAfterCalls(calls), Lower(registeredDomain(domain)), since)|
            == RecordedSince(registeredDomain, calls, domain, since)
  {
    hide Lower, Issuances, RecordsFor, Orderly, CountsWith;
    var rd := Lower(registeredDomain(domain));
    if calls == [] {
      NothingIssued(rd, since);
    } else {
      var front, last := calls[..|calls| - 1], calls[|calls| - 1];
      MemoryCountsNames(registeredDomain, front, domain, since);
      IssuancesAppend(MemoryAfterCalls(front), RecordsFor(last.order, last.domains, last.at), rd, since);
      OrderlyCounts(registeredDomain, last, domain);
      IssuancesOfRecords(last.order, last.domains, last.at, rd, since);
    }
  }

  lemma NothingIssued(rd: string, since: Time)
    ensures Issuances([], rd, since) == []
  {
  }

  lemma OrderlyCounts(registeredDomain: string -> string, call: Recording, domain: string)
    requires Orderly(registeredDomain, call)
    ensures forall i, j :: 0 <= i < j < |call.order| ==> call.order[i] != call.order[j]
    ensures Lower(registeredDomain(domain)) in call.order <==> CountsWith(registeredDomain, call.domains, domain)
  {
    hide Lower;
  }

  lemma {:induction false} FileCallsPruned(calls: seq<Recording>, now: Time)
    requires CalledBefore(calls, now)
    ensures PrunedBefore(FileAfterCalls(calls), MemoryAfterCalls(calls), now)
  {
    hide Pruned, FileAfter, RecordsFor, PrunedBefore;
    if calls == [] {
      EmptyFilePruned(now);
    } else {
      var front, last := calls[..|calls| - 1], calls[|calls| - 1];
      FileCallsPruned(front, last.at);
      FileStaysPruned(FileAfterCalls(front), MemoryAfterCalls(front), last.order, last.domains, last.at, last.saves);
      PrunedLater(FileAfterCalls(calls), MemoryAfterCalls(calls), LastSave(last), now);
    }
  }

  /** In both stores, for the file with a window of at most the week that is kept. */
  lemma StoreCountsNames(registeredDomain: string -> string, onFile: bool, log: seq<IssuanceRecord>,
                         calls: seq<Recording>, domain: string, now: Time, window: Time)
    requires LeftBy(registeredDomain, onFile, log, calls)
    requires onFile ==> CalledBefore(calls, now) && window <= WEEK
    ensures |Issuances(log, Lower(registeredDomain(domain)), now - window)|
            == RecordedSince(registeredDomain, calls, domain, now - window)
  {
    hide Lower, Issuances, RecordsFor, Orderly, CountsWith, Pruned, CalledBefore, FileAfterCalls, MemoryAfterCalls;
    MemoryCountsNames(registeredDomain, calls, domain, now - window);
    if onFile {
      FileCallsPruned(calls, now);
      var cutoff :| cutoff <= now - WEEK && log == Pruned(MemoryAfterCalls(calls), cutoff);
      IssuancesOfPruned(MemoryAfterCalls(calls), Lower(registeredDomain(domain)), now - window, cutoff);
    }
  }

  /** The log is what these calls left, and for a file the clock did not go back and the window
      is at most a week. */
  ghost predicate Known(registeredDomain: string -> string, onFile: bool, log: seq<IssuanceRecord>,
                        calls: seq<Recording>, now: Time, window: Time)
  {
    LeftBy(registeredDomain, onFile, log, calls) && (onFile ==> CalledBefore(calls, now) && window <= WEEK)
  }

  /** Each of these names counts with fewer than `limit` of the calls. */
  predicate NamesAllowed(registeredDomain: string -> string, calls: seq<Recording>, domains: seq<string>, since: Time,
                         limit: int)
  {
    forall d :: d in domains ==> RecordedSince(registeredDomain, calls, d, since) < limit
  }

  /** After any calls of `record`, this is the answer the names get. */
  ghost predicate AnswersByNames(registeredDomain: string -> string, onFile: bool, log: seq<IssuanceRecord>,
                                 domains: seq<string>, now: Time, window: Time, limit: int, allowed: bool)
  {
    forall calls :: Known(registeredDomain, onFile, log, calls, now, window) ==>
      (allowed <==> NamesAllowed(registeredDomain, calls, domains, now - window, limit))
  }

  lemma CheckedByNames(registeredDomain: string -> string, onFile: bool, log: seq<IssuanceRecord>,
                       domains: seq<string>, now: Time, window: Time, limit: int)
    ensures AnswersByNames(registeredDomain, onFile, log, domains, now, window, limit,
                           Allows(log, Registered(domains, registeredDomain), now - window, limit))
  {
    hide Issuances, Lower, LeftBy, RecordedSince, CalledBefore;
    forall calls | Known(registeredDomain, onFile, log, calls, now, window)
      ensures Allows(log, Registered(domains, registeredDomain), now - window, limit) <==>
              NamesAllowed(registeredDomain, calls, domains, now - window, limit)
    {
      forall d | d in domains
        ensures |Issuances(log, Lower(registeredDomain(d)), now - window)| ==
                RecordedSince(registeredDomain, calls, d, now - window)
      {
        StoreCountsNames(registeredDomain, onFile, log, calls, d, now, window);
      }
    }
  }

  lemma ListedOrderly(registeredDomain: string -> string, call: Recording)
    requires Lists(call.order, Registered(call.domains, registeredDomain))
    ensures Orderly(registeredDomain, call)
  {
    hide Lower;
  }

  /** Whatever calls had left the log before, with this one more they leave it now. */
  ghost predicate OneMoreCall(registeredDomain: string -> string, onFile: bool, before: seq<IssuanceRecord>,
                              after: seq<IssuanceRecord>, call: Recording)
  {
    forall calls :: LeftBy(registeredDomain, onFile, before, calls) ==>
      LeftBy(registeredDomain, onFile, after, calls + [call])
  }

  lemma CalledOnce(registeredDomain: string -> string, onFile: bool, before: seq<IssuanceRecord>,
                   after: seq<IssuanceRecord>, call: Recording)
    requires Orderly(registeredDomain, call)
    requires var records := RecordsFor(call.order, call.domains, call.at);
             after == if onFile then FileAfter(before, records, call.saves) else before + records
    ensures OneMoreCall(registeredDomain, onFile, before, after, call)
  {
    hide Orderly, RecordsFor, FileAfter;
    forall calls | LeftBy(registeredDomain, onFile, before, calls)
      ensures LeftBy(registeredDomain, onFile, after, calls + [call])
    {
      assert (calls + [call])[..|calls|] == calls;
    }
  }

  class RateLimitTracker {
    const store: Backend
    const limit: int
    const window: Time
    const warnThreshold: real
    const block: bool
    const registeredDomain: string -> string

    constructor (store: Backend, limit: int, window: Time, warnThreshold: real, block: bool,
                 registeredDomain: string -> string)
      ensures this.store == store && this.limit == limit && this.window == window && this.block == block
      ensures this.warnThreshold == warnThreshold && this.registeredDomain == registeredDomain
    {
      this.store, this.limit, this.window, this.warnThreshold := store, limit, window, warnThreshold;
      this.block, this.registeredDomain := block, registeredDomain;
    }

    method Query(domain: string, since: Time) returns (found: seq<IssuanceRecord>)
      ensures found == Issuances(LogOf(store), domain, since)
    {
      match store {
        case MemoryBackend(memory) => found := memory.GetIssuances(domain, since);
        case FileBackend(stored) => found := stored.GetIssuances(domain, since);
      }
    }

    /** `check`: the counts of every registered domain, and whether none is at the limit. After
        any calls of `record` it allows the names exactly when each of them counts with fewer
        than `limit` of the calls in the window. */
    method Check(domains: seq<string>, now: Time)
      returns (allowed: bool, counts: map<string, int>, blocked: set<string>, warned: set<string>)
      ensures allowed <==> !block || Allows(LogOf(store), Registered(domains, registeredDomain), now - window, limit)
      ensures counts.Keys == set d | d in domains :: Lower(registeredDomain(d))
      ensures forall rd :: rd in counts ==> counts[rd] == |Issuances(LogOf(store), rd, now - window)|
      ensures blocked == set rd | rd in counts && counts[rd] >= limit && block
      ensures warned == set rd | rd in counts && rd !in blocked && counts[rd] as real >= warnThreshold * limit as real
      ensures !block ==> allowed
      ensures block ==>
                AnswersByNames(registeredDomain, store.FileBackend?, LogOf(store), domains, now, window, limit, allowed)
    {
      hide Issuances, Lower, AnswersByNames;
      CheckedByNames(registeredDomain, store.FileBackend?, LogOf(store), domains, now, window, limit);
      var since := now - window;
      var registered := Registered(domains, registeredDomain);
      var todo := registered;
      allowed, counts, blocked, warned := true, map[], {}, {};
      while todo != {}
        invariant todo <= registered && counts.Keys == registered - todo
        invariant forall rd :: rd in counts ==> counts[rd] == |Issuances(LogOf(store), rd, since)|
        invariant blocked == set rd | rd in counts && counts[rd] >= limit && block
        invariant warned == set rd | rd in counts && rd !in blocked
                  && counts[rd] as real >= warnThreshold * limit as real
        invariant allowed <==> !block || forall rd :: rd in counts ==> counts[rd] < limit
        decreases todo
      {
        var rd :| rd in todo;
        var existing := Query(rd, since);
        var count := |existing|;
        counts := counts[rd := count];
        if count >= limit && block {
          allowed := false;
          blocked := blocked + {rd};
        } else if count as real >= warnThreshold * limit as real {
          warned := warned + {rd};
        }
        todo := todo - {rd};
      }
    }

    /** `record`: one record per registered domain, in some order, at one time; a file store
        reads the clock again at each save. It is one more call. */
    method Record(domains: seq<string>, now: Time, saves: nat -> Time) returns (ghost order: seq<string>)
      modifies if store.MemoryBackend? then {store.memory as object} else {store.stored as object}
      ensures Orderly(registeredDomain, Recording(domains, now, order, saves))
      ensures store.MemoryBackend? ==> LogOf(store) == old(LogOf(store)) + RecordsFor(order, domains, now)
      ensures store.FileBackend? ==>
                LogOf(store) == FileAfter(old(LogOf(store)), RecordsFor(order, domains, now), saves)
      ensures OneMoreCall(registeredDomain, store.FileBackend?, old(LogOf(store)), LogOf(store),
                          Recording(domains, now, order, saves))
    {
      hide Lower, Pruned, Orderly, OneMoreCall;
      var registered := Registered(domains, registeredDomain);
      var todo := registered;
      order := [];
      var saved := 0;
      assert LogOf(store) + RecordsFor([], domains, now) == LogOf(store);
      while todo != {}
        invariant todo <= registered && Lists(order, registered - todo)
        invariant store.MemoryBackend? ==> LogOf(store) == old(LogOf(store)) + RecordsFor(order, domains, now)
        invariant saved == |RecordsFor(order, domains, now)|
        invariant store.FileBackend? ==>
                  LogOf(store) == FileAfter(old(LogOf(store)), RecordsFor(order, domains, now), saves)
        decreases todo
      {
        var rd :| rd in todo;
        var record := IssuanceRecord(rd, domains, now);
        ghost var before := RecordsFor(order, domains, now);
        assert RecordsFor(order + [rd], domains, now) == before + [record] by {
          assert (order + [rd])[..|order|] == order;
        }
        assert (before + [record])[..|before|] == before;
        match store {
          case MemoryBackend(memory) =>
            assert old(LogOf(store)) + before + [record] == old(LogOf(store)) + (before + [record]);
            memory.RecordIssuance(record);
          case FileBackend(stored) => stored.RecordIssuance(record, saves(saved));
        }
        saved := saved + 1;
        ListsOneMore(order, registered - todo, rd);
        order := order + [rd];
        todo := todo - {rd};
        assert registered - todo == registered - (todo + {rd}) + {rd};
      }
      assert registered - todo == registered;
      ListedOrderly(registeredDomain, Recording(domains, now, order, saves));
      CalledOnce(registeredDomain, store.FileBackend?, old(LogOf(store)), LogOf(store),
                 Recording(domains, now, order, saves));
    }
  }

  lemma ListsOneMore(order: seq<string>, registered: set<string>, rd: string)
    requires Lists(order, registered) && rd !in registered
    ensures Lists(order + [rd], registered + {rd})
  {
    var all := order + [rd];
    forall x | x in registered + {rd} ensures x in all {
      if x == rd { assert all[|order|] == rd; } else { var i :| 0 <= i < |order| && order[i] == x; assert all[i] == x; }
    }
  }

  // ---------------------------------------------------------------- the window bound

  /** The operations of issuance tasks that share one limiter: a check that admits or
      refuses a task, the record it makes when it has its certificate and the clock when a file
      store saves it, or its failure. */
  datatype Op =
    | Check(id: nat, registered: set<string>, at: Time)
    | Record(id: nat, order: seq<string>, domains: seq<string>, at: Time, saves: nat -> Time)
    | Abandon(id: nat, at: Time)

  datatype Limiter = Limiter(log: seq<IssuanceRecord>, inFlight: map<nat, set<string>>)

  function Apply(limit: int, window: Time, s: Limiter, op: Op): Limiter {
    match op
    case Check(id, registered, at) =>
      if id !in s.inFlight && Allows(s.log, registered, at - window, limit)
      then s.(inFlight := s.inFlight[id := registered]) else s
    case Record(id, order, domains, at, saves) =>
      if id in s.inFlight && Lists(order, s.inFlight[id])
      then Limiter(s.log + RecordsFor(order, domains, at), s.inFlight - {id}) else s
    case Abandon(id, at) => s.(inFlight := s.inFlight - {id})
  }

  function RunOps(limit: int, window: Time, ops: seq<Op>): Limiter {
    if ops == [] then Limiter([], map[])
    else Apply(limit, window, RunOps(limit, window, ops[..|ops| - 1]), ops[|ops| - 1])
  }

  predicate OpsForward(ops: seq<Op>) {
    forall i, j :: 0 <= i < j < |ops| ==> ops[i].at <= ops[j].at
  }

  /** Never more than `k` issuances between their check and their record. */
  predicate AtMostInFlight(limit: int, window: Time, ops: seq<Op>, k: nat) {
    forall i :: 0 <= i <= |ops| ==> |RunOps(limit, window, ops[..i]).inFlight| <= k
  }

  /** The records of one registered domain in a closed interval. */
  function CountIn(log: seq<IssuanceRecord>, rd: string, from: Time, to: Time): nat {
    if log == [] then 0
    else
      var last := log[|log| - 1];
      CountIn(log[..|log| - 1], rd, from, to)
      + if last.registeredDomain == rd && from <= last.issuedAt <= to then 1 else 0
  }

  function Pending(inFlight: map<nat, set<string>>, rd: string): set<nat> {
    set id | id in inFlight && rd in inFlight[id]
  }

  lemma {:induction false} CountAppend(log: seq<IssuanceRecord>, more: seq<IssuanceRecord>, rd: string, from: Time,
                                       to: Time)
    ensures CountIn(log + more, rd, from, to) == CountIn(log, rd, from, to) + CountIn(more, rd, from, to)
  {
    if more == [] {
      assert log + more == log;
    } else {
      CountAppend(log, more[..|more| - 1], rd, from, to);
      assert (log + more)[..|log + more| - 1] == log + more[..|more| - 1];
    }
  }

  lemma {:induction false} CountAtMostSince(log: seq<IssuanceRecord>, rd: string, from: Time, to: Time, since: Time)
    requires since <= from
    ensures CountIn(log, rd, from, to) <= |Issuances(log, rd, since)|
  {
    if log != [] { CountAtMostSince(log[..|log| - 1], rd, from, to, since); }
  }

  lemma {:induction false} CountOfRecords(order: seq<string>, domains: seq<string>, at: Time, rd: string, from: Time,
                                          to: Time)
    requires forall i, j :: 0 <= i < j < |order| ==> order[i] != order[j]
    ensures CountIn(RecordsFor(order, domains, at), rd, from, to) == if rd in order && from <= at <= to then 1 else 0
  {
    if order != [] {
      var front, last := order[..|order| - 1], order[|order| - 1];
      CountOfRecords(front, domains, at, rd, from, to);
      var records := RecordsFor(order, domains, at);
      assert records[..|records| - 1] == RecordsFor(front, domains, at);
      assert rd in order <==> rd in front || rd == last;
      assert last !in front;
    }
  }

  /** For one domain and one window: the records in it, and while it is open also the
      issuances still in flight, stay within the bound. */
  predicate WithinBound(s: Limiter, now: Time, rd: string, from: Time, to: Time, bound: nat) {
    && CountIn(s.log, rd, from, to) <= bound
    && (now <= to ==> CountIn(s.log, rd, from, to) + |Pending(s.inFlight, rd)| <= bound)
  }

  lemma PendingSmaller(inFlight: map<nat, set<string>>, rd: string)
    ensures |Pending(inFlight, rd)| <= |inFlight|
  {
    assert Pending(inFlight, rd) <= inFlight.Keys;
    Subset(Pending(inFlight, rd), inFlight.Keys);
    assert |inFlight.Keys| == |inFlight|;
  }

  lemma {:induction false} Subset(a: set<nat>, b: set<nat>)
    requires a <= b
    ensures |a| <= |b|
  {
    if a != {} {
      var x :| x in a;
      Subset(a - {x}, b - {x});
    }
  }

  /** An admitted issuance is pending for its registered domains and no others. */
  lemma Admitted(inFlight: map<nat, set<string>>, id: nat, registered: set<string>, rd: string)
    requires id !in inFlight
    ensures Pending(inFlight[id := registered], rd) == Pending(inFlight, rd) + if rd in registered then {id} else {}
  {
  }

  lemma Dismissed(inFlight: map<nat, set<string>>, id: nat, rd: string)
    ensures Pending(inFlight - {id}, rd) == Pending(inFlight, rd) - {id}
  {
  }

  lemma CheckKeepsBound(limit: nat, window: Time, s: Limiter, op: Op, before: Time, rd: string, from: Time, k: nat)
    requires op.Check? && k >= 1 && before <= op.at && WithinBound(s, before, rd, from, from + window, limit + k - 1)
    requires |Apply(limit, window, s, op).inFlight| <= k
    ensures WithinBound(Apply(limit, window, s, op), op.at, rd, from, from + window, limit + k - 1)
  {
    hide CountIn, Issuances, RecordsFor, Pending, Lists;
    var t, to := Apply(limit, window, s, op), from + window;
    PendingSmaller(t.inFlight, rd);
    if t != s {
      Admitted(s.inFlight, op.id, op.registered, rd);
      if rd in op.registered && op.at <= to {
        CountAtMostSince(s.log, rd, from, to, op.at - window);
      }
    }
  }

  lemma RecordKeepsBound(limit: nat, window: Time, s: Limiter, op: Op, before: Time, rd: string, from: Time, bound: nat)
    requires op.Record? && before <= op.at && WithinBound(s, before, rd, from, from + window, bound)
    ensures WithinBound(Apply(limit, window, s, op), op.at, rd, from, from + window, bound)
  {
    hide CountIn, Issuances, RecordsFor, Pending, Allows;
    var t, to := Apply(limit, window, s, op), from + window;
    if t != s {
      CountAppend(s.log, RecordsFor(op.order, op.domains, op.at), rd, from, to);
      CountOfRecords(op.order, op.domains, op.at, rd, from, to);
      Dismissed(s.inFlight, op.id, rd);
      PendingMember(s.inFlight, op.id, rd);
    }
  }

  lemma PendingMember(inFlight: map<nat, set<string>>, id: nat, rd: string)
    ensures id in Pending(inFlight, rd) <==> id in inFlight && rd in inFlight[id]
  {
  }

  lemma AbandonKeepsBound(limit: nat, window: Time, s: Limiter, op: Op, before: Time, rd: string, from: Time,
                          bound: nat)
    requires op.Abandon? && before <= op.at && WithinBound(s, before, rd, from, from + window, bound)
    ensures WithinBound(Apply(limit, window, s, op), op.at, rd, from, from + window, bound)
  {
    hide CountIn, Issuances, RecordsFor, Pending, Lists, Allows;
    Dismissed(s.inFlight, op.id, rd);
    Subset(Pending(s.inFlight, rd) - {op.id}, Pending(s.inFlight, rd));
  }

  lemma BoundKept(limit: nat, window: Time, s: Limiter, op: Op, before: Time, rd: string, from: Time, k: nat)
    requires k >= 1 && before <= op.at && WithinBound(s, before, rd, from, from + window, limit + k - 1)
    requires |Apply(limit, window, s, op).inFlight| <= k
    ensures WithinBound(Apply(limit, window, s, op), op.at, rd, from, from + window, limit + k - 1)
  {
    hide WithinBound, Apply;
    match op
    case Check(_, _, _) => CheckKeepsBound(limit, window, s, op, before, rd, from, k);
    case Record(_, _, _, _, _) => RecordKeepsBound(limit, window, s, op, before, rd, from, limit + k - 1);
    case Abandon(_, _) => AbandonKeepsBound(limit, window, s, op, before, rd, from, limit + k - 1);
  }

  lemma {:induction false} BoundOverRun(limit: nat, window: Time, ops: seq<Op>, rd: string, from: Time, k: nat)
    requires OpsForward(ops) && k >= 1 && AtMostInFlight(limit, window, ops, k)
    ensures WithinBound(RunOps(limit, window, ops), if ops == [] then from else ops[|ops| - 1].at, rd,
                        from, from + window,
                        limit + k - 1)
  {
    hide WithinBound, Apply;
    if ops == [] {
      NothingCounted(rd, from, window, limit + k - 1);
    } else {
      var front := ops[..|ops| - 1];
      assert forall i :: 0 <= i <= |front| ==> front[..i] == ops[..i];
      BoundOverRun(limit, window, front, rd, from, k);
      assert ops[..|ops|] == ops;
      if front == [] {
        NothingCounted(rd, ops[0].at, window, limit + k - 1);
        StartAnywhere(rd, ops[0].at, from, window, limit + k - 1);
        BoundKept(limit, window, RunOps(limit, window, front), ops[|ops| - 1], ops[0].at, rd, from, k);
      } else {
        BoundKept(limit, window, RunOps(limit, window, front), ops[|ops| - 1], front[|front| - 1].at, rd, from, k);
      }
    }
  }

  lemma NothingCounted(rd: string, from: Time, window: Time, bound: nat)
    ensures WithinBound(Limiter([], map[]), from, rd, from, from + window, bound)
  {
  }

  lemma StartAnywhere(rd: string, now: Time, from: Time, window: Time, bound: nat)
    ensures WithinBound(Limiter([], map[]), now, rd, from, from + window, bound)
  {
  }

  /** With at most `k` issuances in flight at any time, no closed window holds more than
      `limit + k - 1` records of a registered domain. */
  lemma WindowBound(limit: nat, window: Time, ops: seq<Op>, rd: string, from: Time, k: nat)
    requires OpsForward(ops) && k >= 1 && AtMostInFlight(limit, window, ops, k)
    ensures CountIn(RunOps(limit, window, ops).log, rd, from, from + window) <= limit + k - 1
  {
    BoundOverRun(limit, window, ops, rd, from, k);
  }

  /** One issuance at a time therefore never exceeds the limit itself. */
  lemma SequentialWindowBound(limit: nat, window: Time, ops: seq<Op>, rd: string, from: Time)
    requires OpsForward(ops) && AtMostInFlight(limit, window, ops, 1)
    ensures CountIn(RunOps(limit, window, ops).log, rd, from, from + window) <= limit
  {
    WindowBound(limit, window, ops, rd, from, 1);
  }

  // ---------------------------------------------------------------- the bound with the pruned file

  /** The same tasks over the pruned file; `log` is every record ever made. */
  datatype FileLimiter = FileLimiter(file: seq<IssuanceRecord>, log: seq<IssuanceRecord>,
    inFlight: map<nat, set<string>>)

  function ApplyToFile(limit: int, window: Time, s: FileLimiter, op: Op): FileLimiter {
    match op
    case Check(id, registered, at) =>
      if id !in s.inFlight && Allows(s.file, registered, at - window, limit)
      then s.(inFlight := s.inFlight[id := registered]) else s
    case Record(id, order, domains, at, saves) =>
      if id in s.inFlight && Lists(order, s.inFlight[id])
      then FileLimiter(FileAfter(s.file, RecordsFor(order, domains, at), saves), s.log + RecordsFor(order, domains, at),
                       s.inFlight - {id})
      else s
    case Abandon(id, at) => s.(inFlight := s.inFlight - {id})
  }

  function RunOnFile(limit: int, window: Time, ops: seq<Op>): FileLimiter {
    if ops == [] then FileLimiter([], [], map[])
    else ApplyToFile(limit, window, RunOnFile(limit, window, ops[..|ops| - 1]), ops[|ops| - 1])
  }

  /** The saves of a record come after it, one after the other. */
  predicate SavesFollow(order: seq<string>, at: Time, saves: nat -> Time) {
    && (forall i: nat :: i < |order| ==> at <= saves(i))
    && (forall i: nat, j: nat :: i < j < |order| ==> saves(i) <= saves(j))
  }

  /** The last clock reading of an operation. */
  function LastTime(op: Op): Time {
    if op.Record? && op.order != [] then op.saves(|op.order| - 1) else op.at
  }

  /** The clock never goes back, the saves of a file store included. */
  predicate ClockRuns(ops: seq<Op>) {
    && (forall i :: 0 <= i < |ops| && ops[i].Record? ==> SavesFollow(ops[i].order, ops[i].at, ops[i].saves))
    && (forall i, j :: 0 <= i < j < |ops| ==> LastTime(ops[i]) <= ops[j].at)
  }

  /** The file is the whole log pruned at some earlier time. */
  ghost predicate PrunedBefore(file: seq<IssuanceRecord>, log: seq<IssuanceRecord>, now: Time) {
    exists cutoff :: cutoff <= now - WEEK && file == Pruned(log, cutoff)
  }

  lemma {:induction false} FileAfterIsPruned(log: seq<IssuanceRecord>, records: seq<IssuanceRecord>, cutoff: Time,
                                             saves: nat -> Time)
    requires forall i: nat :: i < |records| ==> cutoff <= saves(i) - WEEK
    requires forall i: nat, j: nat :: i < j < |records| ==> saves(i) <= saves(j)
    ensures FileAfter(Pruned(log, cutoff), records, saves) ==
            Pruned(log + records, if records == [] then cutoff else saves(|records| - 1) - WEEK)
  {
    hide Pruned;
    if records == [] {
      assert log + records == log;
    } else {
      var front, last := records[..|records| - 1], records[|records| - 1];
      FileAfterIsPruned(log, front, cutoff, saves);
      var earlier := if front == [] then cutoff else saves(|front| - 1) - WEEK;
      var now := saves(|front|) - WEEK;
      PrunedAppend(Pruned(log + front, earlier), [last], now);
      PrunedTwice(log + front, earlier, now);
      PrunedAppend(log + front, [last], now);
      assert (log + front) + [last] == log + records;
    }
  }

  lemma FileStaysPruned(file: seq<IssuanceRecord>, log: seq<IssuanceRecord>, order: seq<string>, domains: seq<string>,
                        at: Time, saves: nat -> Time)
    requires PrunedBefore(file, log, at) && SavesFollow(order, at, saves)
    ensures var records := RecordsFor(order, domains, at);
            PrunedBefore(FileAfter(file, records, saves), log + records,
                         if order == [] then at else saves(|order| - 1))
  {
    hide Pruned, FileAfter, RecordsFor;
    RecordsCounted(order, domains, at);
    var cutoff :| cutoff <= at - WEEK && file == Pruned(log, cutoff);
    FileAfterIsPruned(log, RecordsFor(order, domains, at), cutoff, saves);
  }

  lemma {:induction false} RecordsCounted(order: seq<string>, domains: seq<string>, at: Time)
    ensures |RecordsFor(order, domains, at)| == |order|
  {
    if order != [] { RecordsCounted(order[..|order| - 1], domains, at); }
  }

  lemma AllowsAlike(file: seq<IssuanceRecord>, log: seq<IssuanceRecord>, registered: set<string>, at: Time,
                    window: Time, limit: int)
    requires PrunedBefore(file, log, at) && window <= WEEK
    ensures Allows(file, registered, at - window, limit) <==> Allows(log, registered, at - window, limit)
  {
    hide Pruned, Issuances;
    var cutoff :| cutoff <= at - WEEK && file == Pruned(log, cutoff);
    forall rd | rd in registered ensures Issuances(file, rd, at - window) == Issuances(log, rd, at - window) {
      IssuancesOfPruned(log, rd, at - window, cutoff);
    }
  }

  lemma PrunedLater(file: seq<IssuanceRecord>, log: seq<IssuanceRecord>, before: Time, now: Time)
    requires PrunedBefore(file, log, before) && before <= now
    ensures PrunedBefore(file, log, now)
  {
    hide Pruned;
  }

  /** Over every run with a window of at most a week, limiting on the pruned file admits
      the same issuances and leaves the same records as limiting on the unpruned log. */
  lemma {:induction false} FileLimitsAlike(limit: int, window: Time, ops: seq<Op>)
    requires ClockRuns(ops) && window <= WEEK
    ensures RunOnFile(limit, window, ops).log == RunOps(limit, window, ops).log
    ensures RunOnFile(limit, window, ops).inFlight == RunOps(limit, window, ops).inFlight
    ensures ops != [] ==>
              PrunedBefore(RunOnFile(limit, window, ops).file, RunOps(limit, window, ops).log, LastTime(ops[|ops| - 1]))
  {
    hide PrunedBefore, Pruned, FileAfter, Allows, Lists, RecordsFor;
    if ops != [] {
      var front, op := ops[..|ops| - 1], ops[|ops| - 1];
      FileLimitsAlike(limit, window, front);
      var s, t := RunOnFile(limit, window, front), RunOps(limit, window, front);
      if front == [] {
        EmptyFilePruned(op.at);
      } else {
        PrunedLater(s.file, t.log, LastTime(front[|front| - 1]), op.at);
      }
      match op
      case Check(_, registered, at) => AllowsAlike(s.file, t.log, registered, at, window, limit);
      case Record(_, order, domains, at, saves) =>
        FileStaysPruned(s.file, t.log, order, domains, at, saves);
        PrunedLater(s.file, t.log, at, LastTime(op));
      case Abandon(_, _) =>
    }
  }

  lemma EmptyFilePruned(now: Time)
    ensures PrunedBefore([], [], now)
  {
    assert Pruned([], now - WEEK) == [];
  }

  lemma RunStep(limit: int, window: Time, ops: seq<Op>, op: Op)
    ensures RunOps(limit, window, ops + [op]) == Apply(limit, window, RunOps(limit, window, ops), op)
  {
    assert (ops + [op])[..|ops|] == ops;
  }

  // ---------------------------------------------------------------- the bound is sharp

  /** A clock that stands still. */
  function AllAtZero(): nat -> Time {
    _ => 0
  }

  /** This many records of one registered domain, all made at time 0. */
  function Filled(m: nat): seq<IssuanceRecord> {
    if m == 0 then [] else Filled(m - 1) + RecordsFor(["a"], [], 0)
  }

  predicate Between(lo: nat, i: nat, hi: nat) { lo <= i < hi }

  /** The issuances numbered from `lo` up to `hi` are in flight. */
  function Flight(lo: nat, hi: nat): map<nat, set<string>> {
    map i: nat | lo <= i < hi && Between(lo, i, hi) :: {"a"}
  }

  /** One issuance after another. */
  function OneByOne(m: nat): seq<Op> {
    if m == 0 then [] else OneByOne(m - 1) + [Check(0, {"a"}, 0)] + [Record(0, ["a"], [], 0, AllAtZero())]
  }

  /** Then many that check before any of them records ... */
  function Checks(before: seq<Op>, n: nat): seq<Op> {
    if n == 0 then before else Checks(before, n - 1) + [Check(n - 1, {"a"}, 0)]
  }

  /** ... and then all record. */
  function Records(before: seq<Op>, n: nat): seq<Op> {
    if n == 0 then before else Records(before, n - 1) + [Record(n - 1, ["a"], [], 0, AllAtZero())]
  }

  lemma {:induction false} FilledCounts(m: nat, window: Time)
    requires window >= 0
    ensures |Issuances(Filled(m), "a", 0 - window)| == m && CountIn(Filled(m), "a", 0, window) == m
  {
    hide RecordsFor, Issuances, CountIn;
    if m == 0 {
      CountNothing("a", 0, window);
    } else {
      FilledCounts(m - 1, window);
      OneForA(window);
      IssuancesAppend(Filled(m - 1), RecordsFor(["a"], [], 0), "a", 0 - window);
      CountAppend(Filled(m - 1), RecordsFor(["a"], [], 0), "a", 0, window);
    }
  }

  lemma OneForA(window: Time)
    requires window >= 0
    ensures RecordsFor(["a"], [], 0) == [IssuanceRecord("a", [], 0)]
    ensures |Issuances(RecordsFor(["a"], [], 0), "a", 0 - window)| == 1
    ensures CountIn(RecordsFor(["a"], [], 0), "a", 0, window) == 1
  {
    hide Issuances, CountIn;
    assert ["a"][..0] == [];
    assert [] + [IssuanceRecord("a", [], 0)] == [IssuanceRecord("a", [], 0)];
    OneRecord(IssuanceRecord("a", [], 0), "a", 0 - window, 0);
    CountOfRecords(["a"], [], 0, "a", 0, window);
  }

  lemma CountNothing(rd: string, from: Time, to: Time)
    ensures CountIn([], rd, from, to) == 0 && Issuances([], rd, from) == [] && Issuances([], rd, 0 - to) == []
  {
  }

  lemma {:induction false} FlightSize(lo: nat, hi: nat)
    requires lo <= hi
    ensures |Flight(lo, hi)| == hi - lo
    decreases hi - lo
  {
    if lo < hi {
      FlightSize(lo + 1, hi);
      assert Flight(lo, hi) == Flight(lo + 1, hi)[lo := {"a"}];
    }
  }

  lemma Admits(limit: nat, window: Time, m: nat, lo: nat, hi: nat)
    requires m < limit && window >= 0 && lo <= hi
    ensures Apply(limit, window, Limiter(Filled(m), Flight(lo, hi)), Check(hi, {"a"}, 0)) ==
            Limiter(Filled(m), Flight(lo, hi + 1))
  {
    hide Issuances, Filled, RecordsFor, CountIn;
    FilledCounts(m, window);
    assert Flight(lo, hi)[hi := {"a"}] == Flight(lo, hi + 1);
  }

  lemma Fills(limit: nat, window: Time, m: nat, lo: nat, hi: nat)
    requires lo < hi
    ensures Apply(limit, window, Limiter(Filled(m), Flight(lo, hi)), Record(lo, ["a"], [], 0, AllAtZero())) ==
            Limiter(Filled(m + 1), Flight(lo + 1, hi))
  {
    hide RecordsFor;
    assert Flight(lo, hi) - {lo} == Flight(lo + 1, hi);
  }

  /** A run at time 0 that ends in this state with never more than `k` in flight. */
  predicate Reaches(limit: nat, window: Time, ops: seq<Op>, k: nat, m: nat, lo: nat, hi: nat) {
    && RunOps(limit, window, ops) == Limiter(Filled(m), Flight(lo, hi))
    && AtMostInFlight(limit, window, ops, k)
    && forall i :: 0 <= i < |ops| ==> ops[i].at == 0
  }

  lemma ReachesStep(limit: nat, window: Time, ops: seq<Op>, op: Op, k: nat, m: nat, lo: nat, hi: nat, m': nat, lo': nat,
                    hi': nat)
    requires Reaches(limit, window, ops, k, m, lo, hi) && op.at == 0 && lo' <= hi' <= lo' + k
    requires Apply(limit, window, Limiter(Filled(m), Flight(lo, hi)), op) == Limiter(Filled(m'), Flight(lo', hi'))
    ensures Reaches(limit, window, ops + [op], k, m', lo', hi')
  {
    hide Apply, Filled, Flight, RunOps;
    RunStep(limit, window, ops, op);
    FlightSize(lo', hi');
    var all := ops + [op];
    forall i | 0 <= i <= |all| ensures |RunOps(limit, window, all[..i]).inFlight| <= k {
      if i <= |ops| { assert all[..i] == ops[..i]; } else { assert all[..i] == all; }
    }
  }

  lemma NothingReached(limit: nat, window: Time, k: nat)
    ensures Reaches(limit, window, [], k, 0, 0, 0)
  {
    assert Flight(0, 0) == map[];
    var none: seq<Op> := [];
    assert none[..0] == none;
  }

  lemma {:induction false} OneByOneReaches(limit: nat, window: Time, k: nat, m: nat)
    requires m <= limit && window >= 0 && k >= 1
    ensures Reaches(limit, window, OneByOne(m), k, m, 0, 0)
  {
    hide Reaches, Apply;
    if m == 0 {
      NothingReached(limit, window, k);
    } else {
      OneByOneReaches(limit, window, k, m - 1);
      Admits(limit, window, m - 1, 0, 0);
      ReachesStep(limit, window, OneByOne(m - 1), Check(0, {"a"}, 0), k, m - 1, 0, 0, m - 1, 0, 1);
      Fills(limit, window, m - 1, 0, 1);
      assert Flight(1, 1) == Flight(0, 0);
      ReachesStep(limit, window, OneByOne(m - 1) + [Check(0, {"a"}, 0)], Record(0, ["a"], [], 0, AllAtZero()), k, m - 1,
        0, 1,
                  m, 0, 0);
    }
  }

  lemma {:induction false} ChecksReach(limit: nat, window: Time, before: seq<Op>, k: nat, m: nat, n: nat)
    requires m < limit && window >= 0 && n <= k && Reaches(limit, window, before, k, m, 0, 0)
    ensures Reaches(limit, window, Checks(before, n), k, m, 0, n)
  {
    hide Reaches, Apply, Filled, Flight;
    if n > 0 {
      ChecksReach(limit, window, before, k, m, n - 1);
      Admits(limit, window, m, 0, n - 1);
      ReachesStep(limit, window, Checks(before, n - 1), Check(n - 1, {"a"}, 0), k, m, 0, n - 1, m, 0, n);
    }
  }

  lemma {:induction false} RecordsReach(limit: nat, window: Time, before: seq<Op>, k: nat, m: nat, n: nat)
    requires n <= k && Reaches(limit, window, before, k, m, 0, k)
    ensures Reaches(limit, window, Records(before, n), k, m + n, n, k)
  {
    hide Reaches, Apply, Filled, Flight;
    if n > 0 {
      RecordsReach(limit, window, before, k, m, n - 1);
      Fills(limit, window, m + n - 1, n - 1, k);
      ReachesStep(limit, window, Records(before, n - 1), Record(n - 1, ["a"], [], 0, AllAtZero()), k, m + n - 1, n - 1,
        k,
                  m + n, n, k);
    }
  }

  /** A run that fills all but one place and then has `k` issuances overlap. */
  function Overlapping(limit: nat, k: nat): seq<Op>
    requires limit >= 1
  {
    Records(Checks(OneByOne(limit - 1), k), k)
  }

  /** The bound is sharp for every limit and every number in flight: some run attains it, so
      with two or more overlapping issuances the limit itself is exceeded. */
  lemma OverlapAttainsBound(limit: nat, window: Time, k: nat)
    requires limit >= 1 && k >= 1 && window >= 0
    ensures var ops := Overlapping(limit, k);
            && OpsForward(ops) && AtMostInFlight(limit, window, ops, k)
            && CountIn(RunOps(limit, window, ops).log, "a", 0, window) == limit + k - 1
  {
    hide Apply, Filled, Flight, RunOps, AtMostInFlight, CountIn;
    OneByOneReaches(limit, window, k, limit - 1);
    ChecksReach(limit, window, OneByOne(limit - 1), k, limit - 1, k);
    RecordsReach(limit, window, Checks(OneByOne(limit - 1), k), k, limit - 1, k);
    FilledCounts(limit + k - 1, window);
  }
}
