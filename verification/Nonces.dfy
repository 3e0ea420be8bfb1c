/** The client's pool of replay nonces, shared by tasks that interleave at every await. */
module Nonces {
  import opened Wrappers
  import opened AcmeServer

  const MAX_BAD_NONCE_RETRIES: nat := 1

  // ---------------------------------------------------------------- the pool

  /** What harvesting a `Replay-Nonce` header does to the pool; an absent or empty header
      is ignored. */
  function Harvest(pool: seq<string>, header: Option<string>): seq<string> {
    if header.Some? && header.value != "" then pool + [header.value] else pool
  }

  /** The header is there and carries a nonce. */
  predicate HasNonce(header: Option<string>) {
    header.Some? && header.value != ""
  }

  /** A response without an error status, by its nonce header; `None` when the call raises. */
  type Headed = Option<Option<string>>

  /** The response to a signed post: its header, and whether it is a badNonce problem, another
      error, or a success; `None` when the call raises before there is a response. */
  datatype Verdict = Accepted | BadNonce | Rejected
  datatype Posted = Posted(header: Option<string>, verdict: Verdict)

  /** When `_get_nonce` gets a nonce: there is one in the pool, or the directory is known and the
      new-nonce request succeeds and one of the two replies brings a nonce. */
  predicate Obtains(pool: seq<string>, cached: bool, directory: Headed, newNonce: Headed) {
    || pool != []
    || ((cached || directory.Some?) && newNonce.Some?
        && (HasNonce(newNonce.value) || (!cached && HasNonce(directory.value))))
  }

  /** The new-nonce request succeeds and brings a nonce. */
  predicate Fetches(cached: bool, directory: Headed, newNonce: Headed) {
    (cached || directory.Some?) && newNonce.Some? && HasNonce(newNonce.value)
  }

  lemma ObtainsWhen(pool: seq<string>, before: bool, cached: bool, directory: Headed, newNonce: Headed)
    requires before ==> cached
    ensures pool != [] || Fetches(before, directory, newNonce) ==> Obtains(pool, cached, directory, newNonce)
  {
  }

  /** The response accepts the post, or refuses its nonce. */
  predicate Accepts(reply: Option<Posted>) {
    reply.Some? && reply.value.verdict == Accepted
  }

  predicate RefusesNonce(reply: Option<Posted>) {
    reply.Some? && reply.value.verdict == BadNonce
  }

  predicate BringsNonce(reply: Option<Posted>) {
    reply.Some? && HasNonce(reply.value.header)
  }

  class NoncePool {
    var nonces: seq<string>
    var directoryCached: bool

    constructor ()
      ensures nonces == [] && !directoryCached
    {
      nonces, directoryCached := [], false;
    }

    /** `_harvest_nonce`. */
    method HarvestNonce(header: Option<string>)
      modifies this`nonces
      ensures nonces == Harvest(old(nonces), header)
      ensures nonces == if HasNonce(header) then old(nonces) + [header.value] else old(nonces)
    {
      if header.Some? && header.value != "" {
        nonces := nonces + [header.value];
      }
    }

    /** The synchronous part of `_get_nonce`: the nonce last harvested, if there is one. */
    method Pop() returns (nonce: Option<string>)
      modifies this`nonces
      ensures old(nonces) == [] ==> nonce == None && nonces == []
      ensures old(nonces) != [] ==> nonce == Some(old(nonces)[|old(nonces)| - 1])
      ensures old(nonces) != [] ==> nonces + [nonce.value] == old(nonces)
    {
      if nonces == [] {
        return None;
      }
      nonce := Some(nonces[|nonces| - 1]);
      nonces := nonces[..|nonces| - 1];
    }

    /** `_get_nonce`, with what the directory and new-nonce requests would bring; `got` is
        what was harvested on the way. With an empty pool the nonce is that of the new-nonce
        reply when it has one. */
    method GetNonce(directory: Headed, newNonce: Headed) returns (nonce: Option<string>, ghost got: seq<string>)
      modifies this
      ensures Taken(old(nonces), got, nonces, if nonce.Some? then [nonce.value] else [])
      ensures nonce.Some? <==> Obtains(old(nonces), old(directoryCached), directory, newNonce)
      ensures old(nonces) != [] ==> got == [] && nonces + [nonce.value] == old(nonces)
      ensures old(nonces) == [] && nonce.Some? ==>
                nonce == if HasNonce(newNonce.value) then newNonce.value else directory.value
      ensures directoryCached == (old(directoryCached) || (old(nonces) == [] && directory.Some?))
    {
      got := [];
      if nonces != [] {
        nonce := Pop();
        return;
      }
      if !directoryCached {
        if directory.None? {
          return None, got;
        }
        HarvestNonce(directory.value);
        got := Harvest(got, directory.value);
        directoryCached := true;
      }
      if newNonce.None? {
        return None, got;
      }
      HarvestNonce(newNonce.value);
      got := Harvest(got, newNonce.value);
      nonce := Pop();
    }

    /** `_raw_signed_request`: the post, whose response brings its nonce before it is judged. */
    method RawSignedRequest(reply: Option<Posted>) returns (verdict: Option<Verdict>, ghost got: seq<string>)
      modifies this`nonces
      ensures Taken(old(nonces), got, nonces, [])
      ensures nonces == if BringsNonce(reply) then old(nonces) + [reply.value.header.value] else old(nonces)
      ensures verdict == Some(Accepted) <==> Accepts(reply)
      ensures verdict == Some(BadNonce) <==> RefusesNonce(reply)
    {
      hide Taken, Harvest;
      got := [];
      TakenNothing(nonces);
      if reply.None? {
        return None, got;
      }
      TakenHeader(nonces, got, nonces, [], reply.value.header);
      HarvestNonce(reply.value.header);
      got := Harvest(got, reply.value.header);
      return Some(reply.value.verdict), got;
    }

    /** The body of the retry loop: a nonce and, if there is one, a post with it. */
    method TryOnce(directory: Headed, newNonce: Headed, reply: Option<Posted>)
      returns (verdict: Option<Verdict>, ghost posts: seq<string>, ghost got: seq<string>)
      modifies this
      ensures Taken(old(nonces), got, nonces, posts)
      ensures |posts| == if Obtains(old(nonces), old(directoryCached), directory, newNonce) then 1 else 0
      ensures verdict == Some(Accepted) <==> |posts| == 1 && Accepts(reply)
      ensures verdict == Some(BadNonce) <==> |posts| == 1 && RefusesNonce(reply)
      ensures |posts| == 1 && BringsNonce(reply) ==> nonces != []
      ensures old(directoryCached) ==> directoryCached
    {
      hide Taken, Harvest, Obtains, Accepts, RefusesNonce, BringsNonce;
      var nonce;
      nonce, got := GetNonce(directory, newNonce);
      posts := [];
      verdict := None;
      if nonce.Some? {
        posts := [nonce.value];
        ghost var before, first := nonces, got;
        verdict, got := RawSignedRequest(reply);
        TakenTwice(old(nonces), first, before, posts, got, nonces, []);
        assert posts + [] == posts;
        got := first + got;
      }
    }

    /** `_signed_request` with nothing interleaved: it posts at most twice, the second time
        only when the first was refused with badNonce, and its nonces are conserved. It posts
        when it gets a nonce, once if that is accepted; when the nonce is refused and there is
        another, because the refusal brings one or a new one is fetched, it posts again. */
    method SignedRequest(directory: nat -> Headed, newNonce: nat -> Headed, post: nat -> Option<Posted>)
      returns (ok: bool, ghost posts: seq<string>, ghost got: seq<string>)
      modifies this
      ensures Taken(old(nonces), got, nonces, posts)
      ensures |posts| <= 2
      ensures |posts| == 2 ==> RefusesNonce(post(0))
      ensures |posts| >= 1 <==> Obtains(old(nonces), old(directoryCached), directory(0), newNonce(0))
      ensures |posts| >= 1 && Accepts(post(0)) ==> |posts| == 1 && ok
      ensures |posts| >= 1 && RefusesNonce(post(0)) && BringsNonce(post(0)) ==> |posts| == 2
      ensures |posts| >= 1 && RefusesNonce(post(0)) && Fetches(old(directoryCached), directory(1), newNonce(1)) ==>
                |posts| == 2
      ensures |posts| == 2 && Accepts(post(1)) ==> ok
      ensures ok <==> |posts| >= 1 && Accepts(post(|posts| - 1))
    {
      hide Taken, Harvest, Obtains, Fetches, Accepts, RefusesNonce, BringsNonce;
      posts, got := [], [];
      TakenNothing(nonces);
      for attempt := 0 to MAX_BAD_NONCE_RETRIES + 1
        invariant |posts| == attempt && Taken(old(nonces), got, nonces, posts)
        invariant forall k: nat :: k < attempt ==> RefusesNonce(post(k)) && !Accepts(post(k))
        invariant attempt == 0 ==> nonces == old(nonces) && directoryCached == old(directoryCached)
        invariant attempt >= 1 ==> Obtains(old(nonces), old(directoryCached), directory(0), newNonce(0))
        invariant attempt == 1 && BringsNonce(post(0)) ==> nonces != []
        invariant old(directoryCached) ==> directoryCached
      {
        ghost var before := nonces;
        ObtainsWhen(nonces, old(directoryCached), directoryCached, directory(attempt), newNonce(attempt));
        var verdict, sent, more := TryOnce(directory(attempt), newNonce(attempt), post(attempt));
        TakenTwice(old(nonces), got, before, posts, more, nonces, sent);
        posts, got := posts + sent, got + more;
        if verdict == Some(Accepted) {
          return true, posts, got;
        }
        if verdict != Some(BadNonce) {
          return false, posts, got;
        }
      }
      return false, posts, got;
    }
  }

  /** What was in the pool and what was harvested is what is left and what was used. */
  predicate Taken(before: seq<string>, got: seq<string>, after: seq<string>, used: seq<string>) {
    multiset(before) + multiset(got) == multiset(after) + multiset(used)
  }

  lemma TakenNothing(pool: seq<string>)
    ensures Taken(pool, [], pool, [])
  {
  }

  lemma TakenTwice(a: seq<string>, got: seq<string>, b: seq<string>, used: seq<string>, more: seq<string>,
                   c: seq<string>, also: seq<string>)
    requires Taken(a, got, b, used) && Taken(b, more, c, also)
    ensures Taken(a, got + more, c, used + also)
  {
    var A, G, B, U, M, C, V :=
      multiset(a), multiset(got), multiset(b), multiset(used), multiset(more), multiset(c), multiset(also);
    assert multiset(got + more) == G + M && multiset(used + also) == U + V;
    forall x ensures (A + (G + M))[x] == (C + (U + V))[x] {
      assert (A + G)[x] == (B + U)[x] && (B + M)[x] == (C + V)[x];
    }
    assert A + (G + M) == C + (U + V);
  }

  lemma TakenHeader(a: seq<string>, got: seq<string>, b: seq<string>, used: seq<string>, header: Option<string>)
    requires Taken(a, got, b, used)
    ensures Taken(a, Harvest(got, header), Harvest(b, header), used)
  {
    if header.Some? && header.value != "" {
      var h := [header.value];
      assert Taken(b, h, b + h, []);
      TakenTwice(a, got, b, used, h, b + h, []);
      assert used + [] == used;
    }
  }

  // ---------------------------------------------------------------- tasks

  /** Where a `_signed_request` is suspended: waiting for the directory or for a fresh
      nonce, or for the response to its post; or how it ended. */
  datatype Phase =
    | AwaitDirectory(attempt: nat)
    | AwaitNonce(attempt: nat)
    | AwaitResponse(attempt: nat)
    | Ended

  datatype Task = Task(phase: Phase, posts: seq<string>, refused: nat)

  /** The pool, whether the directory is cached, the tasks, and two histories: every nonce
      harvested and every nonce put into a JWS. */
  datatype World = World(
    pool: seq<string>, cached: bool, tasks: map<nat, Task>, harvested: seq<string>, sent: seq<string>)

  datatype Event =
    | Begin(task: nat)
    | DirectoryReply(task: nat, ok: bool, header: Option<string>)
    | NonceReply(task: nat, ok: bool, header: Option<string>)
    | PostReply(task: nat, header: Option<string>, badNonce: bool)
    | Broken(task: nat)
    | OtherReply(header: Option<string>)

  const START: World := World([], false, map[], [], [])

  function WithHeader(w: World, header: Option<string>): World {
    w.(pool := Harvest(w.pool, header), harvested := Harvest(w.harvested, header))
  }

  /** Taking the last nonce and posting with it. */
  function Post(w: World, id: nat, task: Task, attempt: nat): World
    requires w.pool != []
  {
    var nonce := w.pool[|w.pool| - 1];
    w.(pool := w.pool[..|w.pool| - 1], sent := w.sent + [nonce],
       tasks := w.tasks[id := task.(phase := AwaitResponse(attempt), posts := task.posts + [nonce])])
  }

  function InPhase(w: World, id: nat, task: Task, phase: Phase): World {
    w.(tasks := w.tasks[id := task.(phase := phase)])
  }

  /** The start of an attempt: `_get_nonce` up to its first await, or the post itself. */
  function Attempt(w: World, id: nat, task: Task, attempt: nat): World {
    if w.pool != [] then Post(w, id, task, attempt)
    else if w.cached then InPhase(w, id, task, AwaitNonce(attempt))
    else InPhase(w, id, task, AwaitDirectory(attempt))
  }

  /** One resumption of one task. */
  function Step(w: World, e: Event): World {
    match e
    case Begin(id) => if id in w.tasks then w else Attempt(w, id, Task(Ended, [], 0), 0)
    case DirectoryReply(id, ok, header) =>
      if id !in w.tasks || !w.tasks[id].phase.AwaitDirectory? then w
      else if !ok then InPhase(w, id, w.tasks[id], Ended)
      else InPhase(WithHeader(w, header).(cached := true), id, w.tasks[id], AwaitNonce(w.tasks[id].phase.attempt))
    case NonceReply(id, ok, header) =>
      if id !in w.tasks || !w.tasks[id].phase.AwaitNonce? then w
      else if !ok then InPhase(w, id, w.tasks[id], Ended)
      else
        var got := WithHeader(w, header);
        if got.pool == [] then InPhase(got, id, w.tasks[id], Ended)
        else Post(got, id, w.tasks[id], w.tasks[id].phase.attempt)
    case PostReply(id, header, badNonce) =>
      if id !in w.tasks || !w.tasks[id].phase.AwaitResponse? then w
      else
        var got, task, attempt := WithHeader(w, header), w.tasks[id], w.tasks[id].phase.attempt;
        if !badNonce then InPhase(got, id, task, Ended)
        else if attempt < MAX_BAD_NONCE_RETRIES then Attempt(got, id, task.(refused := task.refused + 1), attempt + 1)
        else InPhase(got, id, task.(refused := task.refused + 1), Ended)
    case Broken(id) => if id !in w.tasks then w else InPhase(w, id, w.tasks[id], Ended)
    case OtherReply(header) => WithHeader(w, header)
  }

  function Run(events: seq<Event>): World {
    if events == [] then START else Step(Run(events[..|events| - 1]), events[|events| - 1])
  }

  // ---------------------------------------------------------------- what is harvested

  /** The nonce header of a reply that a task was waiting for, or of another response; a
      directory or new-nonce reply with an error status is not looked at. */
  function Delivered(w: World, e: Event): Option<string> {
    match e
    case DirectoryReply(id, ok, header) =>
      if ok && id in w.tasks && w.tasks[id].phase.AwaitDirectory? then header else None
    case NonceReply(id, ok, header) =>
      if ok && id in w.tasks && w.tasks[id].phase.AwaitNonce? then header else None
    case PostReply(id, header, _) => if id in w.tasks && w.tasks[id].phase.AwaitResponse? then header else None
    case OtherReply(header) => header
    case _ => None
  }

  /** The nonces of a run's replies, in order. */
  function DeliveredNonces(events: seq<Event>): seq<string> {
    if events == [] then []
    else
      var before, header := events[..|events| - 1], Delivered(Run(events[..|events| - 1]), events[|events| - 1]);
      DeliveredNonces(before) + if HasNonce(header) then [header.value] else []
  }

  lemma AttemptKeepsHarvested(w: World, id: nat, task: Task, attempt: nat)
    ensures Attempt(w, id, task, attempt).harvested == w.harvested
  {
  }

  lemma HarvestedStep(w: World, e: Event)
    ensures Step(w, e).harvested ==
            w.harvested + if HasNonce(Delivered(w, e)) then [Delivered(w, e).value] else []
  {
    hide Attempt;
    match e
    case Begin(id) => AttemptKeepsHarvested(w, id, Task(Ended, [], 0), 0);
    case PostReply(id, header, _) =>
      if id in w.tasks && w.tasks[id].phase.AwaitResponse? {
        var task := w.tasks[id];
        AttemptKeepsHarvested(WithHeader(w, header), id, task.(refused := task.refused + 1), task.phase.attempt + 1);
      }
    case _ =>
  }

  /** Over every run the nonces harvested are those of the replies delivered, in their order. */
  lemma {:induction false} HarvestedInOrder(events: seq<Event>)
    ensures Run(events).harvested == DeliveredNonces(events)
  {
    hide Step, Delivered;
    if events != [] {
      HarvestedInOrder(events[..|events| - 1]);
      HarvestedStep(Run(events[..|events| - 1]), events[|events| - 1]);
    }
  }

  /** A task with an empty pool that gets a new-nonce reply with a nonce posts with that nonce. */
  lemma FreshNonceSent(w: World, id: nat, header: Option<string>)
    requires w.pool == [] && id in w.tasks && w.tasks[id].phase.AwaitNonce? && HasNonce(header)
    ensures var t := Step(w, NonceReply(id, true, header));
            && t.pool == [] && t.sent == w.sent + [header.value]
            && t.tasks[id].posts == w.tasks[id].posts + [header.value]
            && t.tasks[id].phase == AwaitResponse(w.tasks[id].phase.attempt)
  {
    assert [] + [header.value] == [header.value];
  }

  /** A first post refused with badNonce whose response brings a nonce is repeated with it. */
  lemma RefusalRetried(w: World, id: nat, header: Option<string>)
    requires id in w.tasks && w.tasks[id].phase == AwaitResponse(0) && HasNonce(header)
    ensures var t := Step(w, PostReply(id, header, true));
            && t.pool == w.pool && t.sent == w.sent + [header.value]
            && t.tasks[id].posts == w.tasks[id].posts + [header.value] && t.tasks[id].phase == AwaitResponse(1)
  {
    assert (w.pool + [header.value])[..|w.pool|] == w.pool;
  }

  // ---------------------------------------------------------------- the directory

  /** How a task begins: it posts with the last nonce of the pool, or waits for a fresh one, or
      for the directory if that is not known. */
  lemma BeginExact(w: World, id: nat)
    requires id !in w.tasks
    ensures var t := Step(w, Begin(id));
            && id in t.tasks
            && t.tasks[id].phase == (if w.pool != [] then AwaitResponse(0)
                                     else if w.cached then AwaitNonce(0) else AwaitDirectory(0))
            && t.tasks[id].posts == (if w.pool != [] then [w.pool[|w.pool| - 1]] else [])
  {
    assert [] + [if w.pool != [] then w.pool[|w.pool| - 1] else ""] ==
           [if w.pool != [] then w.pool[|w.pool| - 1] else ""];
  }

  predicate AwaitsDirectory(w: World, id: nat) {
    id in w.tasks && w.tasks[id].phase.AwaitDirectory?
  }

  /** The reply to a task that waits for the directory makes it known, and once it is known no
      further task waits for it. */
  lemma DirectoryStep(w: World, e: Event, id: nat)
    ensures e.DirectoryReply? && e.ok && AwaitsDirectory(w, e.task) ==> Step(w, e).cached
    ensures w.cached ==> Step(w, e).cached
    ensures w.cached && AwaitsDirectory(Step(w, e), id) ==> AwaitsDirectory(w, id)
  {
    hide Harvest;
  }

  /** Over every run: the tasks that wait for the directory after it became known did so already
      then. */
  lemma {:induction false} DirectoryKept(events: seq<Event>, i: nat, id: nat)
    requires i <= |events| && Run(events[..i]).cached
    ensures Run(events).cached
    ensures AwaitsDirectory(Run(events), id) ==> AwaitsDirectory(Run(events[..i]), id)
    decreases |events|
  {
    hide Step, AwaitsDirectory;
    if i == |events| {
      assert events[..i] == events;
    } else {
      var front := events[..|events| - 1];
      assert front[..i] == events[..i];
      DirectoryKept(front, i, id);
      DirectoryStep(Run(front), events[|events| - 1], id);
    }
  }

  // ---------------------------------------------------------------- conservation

  /** Every nonce harvested is in the pool or was sent, never both and never twice. */
  predicate Conserved(w: World) {
    multiset(w.harvested) == multiset(w.pool) + multiset(w.sent)
  }

  predicate NoEmptyNonce(w: World) {
    "" !in w.harvested && "" !in w.pool && "" !in w.sent
  }

  lemma HeaderConserves(w: World, header: Option<string>)
    requires Conserved(w) && NoEmptyNonce(w)
    ensures Conserved(WithHeader(w, header)) && NoEmptyNonce(WithHeader(w, header))
  {
  }

  lemma PostConserves(w: World, id: nat, task: Task, attempt: nat)
    requires Conserved(w) && NoEmptyNonce(w) && w.pool != []
    ensures Conserved(Post(w, id, task, attempt)) && NoEmptyNonce(Post(w, id, task, attempt))
  {
    assert w.pool == w.pool[..|w.pool| - 1] + [w.pool[|w.pool| - 1]];
  }

  lemma AttemptConserves(w: World, id: nat, task: Task, attempt: nat)
    requires Conserved(w) && NoEmptyNonce(w)
    ensures Conserved(Attempt(w, id, task, attempt)) && NoEmptyNonce(Attempt(w, id, task, attempt))
  {
    hide Post;
    if w.pool != [] { PostConserves(w, id, task, attempt); }
  }

  lemma StepConserves(w: World, e: Event)
    requires Conserved(w) && NoEmptyNonce(w)
    ensures Conserved(Step(w, e)) && NoEmptyNonce(Step(w, e))
  {
    hide Attempt, Post, Harvest;
    match e
    case Begin(id) => AttemptConserves(w, id, Task(Ended, [], 0), 0);
    case DirectoryReply(_, _, header) => HeaderConserves(w, header);
    case NonceReply(id, ok, header) =>
      HeaderConserves(w, header);
      if id in w.tasks && w.tasks[id].phase.AwaitNonce? && WithHeader(w, header).pool != [] {
        PostConserves(WithHeader(w, header), id, w.tasks[id], w.tasks[id].phase.attempt);
      }
    case PostReply(id, header, _) =>
      HeaderConserves(w, header);
      if id in w.tasks && w.tasks[id].phase.AwaitResponse? {
        var task := w.tasks[id];
        AttemptConserves(WithHeader(w, header), id, task.(refused := task.refused + 1), task.phase.attempt + 1);
      }
    case Broken(_) =>
    case OtherReply(header) => HeaderConserves(w, header);
  }

  /** Over every run: harvested nonces are exactly those in the pool and those sent, and no
      empty nonce is ever used. */
  lemma {:induction false} NonceConservation(events: seq<Event>)
    ensures Conserved(Run(events)) && NoEmptyNonce(Run(events))
  {
    hide Step;
    if events != [] {
      NonceConservation(events[..|events| - 1]);
      StepConserves(Run(events[..|events| - 1]), events[|events| - 1]);
    }
  }

  predicate NoRepeats(nonces: seq<string>) {
    forall i, j :: 0 <= i < j < |nonces| ==> nonces[i] != nonces[j]
  }

  lemma {:induction false} CountOfDistinct(s: seq<string>, x: string)
    requires NoRepeats(s)
    ensures multiset(s)[x] <= 1
  {
    if s != [] {
      var front := s[..|s| - 1];
      assert s == front + [s[|s| - 1]];
      CountOfDistinct(front, x);
      assert x in multiset(front) <==> x in front;
    }
  }

  lemma RepeatCountsTwice(s: seq<string>, i: nat, j: nat)
    requires i < j < |s| && s[i] == s[j]
    ensures multiset(s)[s[i]] >= 2
  {
    assert s == s[..j] + [s[j]] + s[j + 1..];
    assert s[i] in s[..j];
    assert s[i] in multiset(s[..j]);
  }

  /** Single use: if the server never repeats a nonce, no nonce is put into two requests,
      whichever tasks make them, and a nonce still in the pool has not been sent. */
  lemma NonceSingleUse(events: seq<Event>)
    requires NoRepeats(Run(events).harvested)
    ensures NoRepeats(Run(events).sent)
    ensures forall nonce :: nonce in Run(events).sent ==> nonce in Run(events).harvested && nonce !in Run(events).pool
  {
    hide Run, NoRepeats;
    NonceConservation(events);
    var w := Run(events);
    SentApart(w);
  }

  lemma SentApart(w: World)
    requires Conserved(w) && NoRepeats(w.harvested)
    ensures NoRepeats(w.sent)
    ensures forall nonce :: nonce in w.sent ==> nonce in w.harvested && nonce !in w.pool
  {
    forall i, j | 0 <= i < j < |w.sent| ensures w.sent[i] != w.sent[j] {
      CountOfDistinct(w.harvested, w.sent[i]);
      if w.sent[i] == w.sent[j] { RepeatCountsTwice(w.sent, i, j); }
    }
    forall nonce | nonce in w.sent ensures nonce in w.harvested && nonce !in w.pool {
      CountOfDistinct(w.harvested, nonce);
      assert multiset(w.sent)[nonce] >= 1;
      assert multiset(w.harvested)[nonce] >= 1;
      assert nonce in w.pool ==> multiset(w.pool)[nonce] >= 1;
    }
  }

  /** Every nonce sent in a run had been harvested in an earlier or the same resumption. */
  lemma SentWasHarvested(events: seq<Event>, nonce: string)
    requires nonce in Run(events).sent
    ensures nonce in Run(events).harvested
  {
    hide Run;
    NonceConservation(events);
    assert nonce in multiset(Run(events).sent);
    assert nonce in multiset(Run(events).harvested);
  }

  // ---------------------------------------------------------------- requests of one task

  /** A task posts once for its first attempt and once more for each attempt that was
      refused with badNonce. */
  predicate PostsJustified(task: Task) {
    match task.phase
    case AwaitDirectory(attempt) => attempt <= MAX_BAD_NONCE_RETRIES && |task.posts| == attempt
      && task.refused == attempt
    case AwaitNonce(attempt) => attempt <= MAX_BAD_NONCE_RETRIES && |task.posts| == attempt && task.refused == attempt
    case AwaitResponse(attempt) => attempt <= MAX_BAD_NONCE_RETRIES && |task.posts| == attempt + 1
      && task.refused == attempt
    case Ended => |task.posts| <= task.refused + 1 && |task.posts| <= MAX_BAD_NONCE_RETRIES + 1
  }

  predicate AllPostsJustified(w: World) {
    forall id :: id in w.tasks ==> PostsJustified(w.tasks[id])
  }

  /** Over every run a signed request posts at most twice, the second time only after the
      first was refused with badNonce. */
  lemma {:induction false} AtMostTwoPosts(events: seq<Event>)
    ensures AllPostsJustified(Run(events))
    ensures forall id :: id in Run(events).tasks ==>
              |Run(events).tasks[id].posts| <= 2
              && (|Run(events).tasks[id].posts| == 2 ==> Run(events).tasks[id].refused >= 1)
  {
    hide Step, PostsJustified;
    if events != [] {
      AtMostTwoPosts(events[..|events| - 1]);
      PostsStep(Run(events[..|events| - 1]), events[|events| - 1]);
    }
    forall id | id in Run(events).tasks
      ensures |Run(events).tasks[id].posts| <= 2
              && (|Run(events).tasks[id].posts| == 2 ==> Run(events).tasks[id].refused >= 1)
    {
      FewPosts(Run(events).tasks[id]);
    }
  }

  lemma FewPosts(task: Task)
    requires PostsJustified(task)
    ensures |task.posts| <= 2 && (|task.posts| == 2 ==> task.refused >= 1)
  {
  }

  lemma PostsAttempt(w: World, id: nat, task: Task, attempt: nat)
    requires AllPostsJustified(w) && attempt <= MAX_BAD_NONCE_RETRIES && |task.posts| == attempt
             && task.refused == attempt
    ensures AllPostsJustified(Attempt(w, id, task, attempt))
  {
  }

  lemma PostsStep(w: World, e: Event)
    requires AllPostsJustified(w)
    ensures AllPostsJustified(Step(w, e))
  {
    hide Harvest, Attempt, Post, PostsJustified;
    match e
    case Begin(id) => PostsAttempt(w, id, Task(Ended, [], 0), 0);
    case DirectoryReply(id, _, _) => if id in w.tasks { PostsAt(w, id); }
    case NonceReply(id, ok, header) =>
      if id in w.tasks {
        PostsAt(w, id);
        if w.tasks[id].phase.AwaitNonce? && WithHeader(w, header).pool != [] {
          PostsPosted(WithHeader(w, header), id, w.tasks[id].phase.attempt);
        }
      }
    case PostReply(id, header, badNonce) =>
      if id in w.tasks { PostsAt(w, id); }
      if id in w.tasks && w.tasks[id].phase.AwaitResponse? && w.tasks[id].phase.attempt < MAX_BAD_NONCE_RETRIES {
        var task := w.tasks[id];
        PostsAttempt(WithHeader(w, header), id, task.(refused := task.refused + 1), task.phase.attempt + 1);
      }
    case Broken(id) => if id in w.tasks { PostsAt(w, id); }
    case OtherReply(_) =>
  }

  lemma PostsPosted(w: World, id: nat, attempt: nat)
    requires AllPostsJustified(w) && id in w.tasks && w.tasks[id].phase == AwaitNonce(attempt) && w.pool != []
    ensures AllPostsJustified(Post(w, id, w.tasks[id], attempt))
  {
  }

  /** What a justified task may become without posting. */
  lemma PostsAt(w: World, id: nat)
    requires AllPostsJustified(w) && id in w.tasks
    ensures var task := w.tasks[id];
            && PostsJustified(task.(phase := Ended))
            && (task.phase.AwaitDirectory? ==> PostsJustified(task.(phase := AwaitNonce(task.phase.attempt))))
            && (task.phase.AwaitResponse? ==>
                  && |task.posts| == task.phase.attempt + 1 && task.refused == task.phase.attempt
                  && PostsJustified(task.(refused := task.refused + 1, phase := Ended)))
  {
  }

  // ---------------------------------------------------------------- against the responder

  /** The responder hands out the nonces of increasing counter values, so its clients'
      nonces are single-use over every run that harvests each of them at most once. */
  lemma ResponderNoncesDistinct(counters: seq<nat>)
    requires forall i, j :: 0 <= i < j < |counters| ==> counters[i] < counters[j]
    ensures NoRepeats(seq(|counters|, i requires 0 <= i < |counters| => NonceText(counters[i])))
  {
    hide NonceText;
    forall i, j | 0 <= i < j < |counters| ensures NonceText(counters[i]) != NonceText(counters[j]) {
      if NonceText(counters[i]) == NonceText(counters[j]) { NonceInjective(counters[i], counters[j]); }
    }
  }
}
