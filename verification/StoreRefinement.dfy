/** The file store as a dictionary: agreement with the in-memory store over whole runs,
    isolation of keys, and what a crash can leave. */
module StoreRefinement {
  import opened Wrappers
  import opened CertStore

  /** The operations of a run; the last is a save whose process stops after some writes. */
  datatype Op =
    | Save(bundle: Bundle)
    | Load(domain: string)
    | List
    | Delete(domain: string)
    | Crash(bundle: Bundle, writes: nat)

  datatype Outcome =
    | Saved(bundle: Bundle)
    | Loaded(found: Option<Bundle>)
    | Listed(bundles: set<Bundle>)
    | Deleted(existed: bool)
    | Raised(error: StoreError)
    | Crashed

  predicate Concerns(op: Op, domain: string) {
    match op
    case Save(bundle) => bundle.domain == domain
    case Load(d) => d == domain
    case List => false
    case Delete(d) => d == domain
    case Crash(bundle, _) => bundle.domain == domain
  }

  predicate Legal(op: Op) {
    match op
    case Save(bundle) => LegalKey(bundle.domain)
    case Load(d) => LegalKey(d)
    case List => true
    case Delete(d) => LegalKey(d)
    case Crash(bundle, writes) => LegalKey(bundle.domain) && writes <= 4
  }

  /** The bundles of all directories that have metadata. */
  function AllBundles(disk: Disk): set<Bundle>
    requires DiskInv(disk)
  {
    set name | name in disk && disk[name].meta.Some? :: (assert Proper(name, disk[name]); BundleIn(disk[name]))
  }

  function FileStep(disk: Disk, op: Op): (Disk, Outcome) {
    match op
    case Save(bundle) =>
      var (after, r) := SaveStopped(disk, bundle, 4);
      (after, if r.Ok? then Saved(r.value) else Raised(r.error))
    case Load(domain) =>
      var r := CertStore.Load(disk, domain);
      (disk, if r.Ok? then Loaded(r.value) else Raised(r.error))
    case List => (disk, if DiskInv(disk) then Listed(AllBundles(disk)) else Raised(FileMissing))
    case Delete(domain) =>
      var (after, r) := CertStore.Delete(disk, domain);
      (after, if r.Ok? then Deleted(r.value) else Raised(r.error))
    case Crash(bundle, writes) =>
      var (after, r) := SaveStopped(disk, bundle, writes);
      (after, if r.Ok? then Crashed else Raised(r.error))
  }

  function MemoryStep(certs: map<string, Bundle>, op: Op): (map<string, Bundle>, Outcome) {
    match op
    case Save(bundle) => (certs[bundle.domain := bundle], Saved(bundle))
    case Load(domain) => (certs, Loaded(if domain in certs then Some(certs[domain]) else None))
    case List => (certs, Listed(set k | k in certs :: certs[k]))
    case Delete(domain) => (certs - {domain}, Deleted(domain in certs))
    case Crash(bundle, writes) => (if writes >= 4 then certs[bundle.domain := bundle] else certs, Crashed)
  }

  /** The disk holds exactly these bundles under their keys. */
  ghost predicate Represents(disk: Disk, certs: map<string, Bundle>) {
    forall k :: Lookup(disk, k) == if k in certs then Some(certs[k]) else None
  }

  /** The key's directory belongs to another key. */
  predicate Blocked(disk: Disk, domain: string) {
    var folder := FolderAt(disk, Component(domain));
    folder.meta.Some? && folder.meta.value.domain != domain
  }

  // ---------------------------------------------------------------- one directory at a time

  /** Only the directory of `domain` differs. */
  ghost predicate OnlyAt(disk: Disk, other: Disk, domain: string) {
    forall name :: name != Component(domain) ==> FolderAt(other, name) == FolderAt(disk, name)
  }

  lemma LookupElsewhere(disk: Disk, other: Disk, domain: string, k: string)
    requires OnlyAt(disk, other, domain) && Component(k) != Component(domain)
    ensures Lookup(other, k) == Lookup(disk, k)
  {
    hide Component;
  }

  /** In a consistent store the key's own bundle is its whole directory. */
  lemma OwnFolder(disk: Disk, domain: string)
    requires DiskInv(disk) && LegalKey(domain)
    ensures var folder := FolderAt(disk, Component(domain));
            && (folder.meta.Some? ==> HasFiles(folder) && LegalKey(folder.meta.value.domain)
                                      && Component(folder.meta.value.domain) == Component(domain))
            && (Blocked(disk, domain) ==> Lookup(disk, domain) == None
                                          && Lookup(disk, folder.meta.value.domain) == Some(BundleIn(folder)))
            && (!Blocked(disk, domain) ==>
                  Lookup(disk, domain) == if folder.meta.Some? then Some(BundleIn(folder)) else None)
  {
    hide Component, LegalKey;
    var name := Component(domain);
    if name in disk { assert Proper(name, disk[name]); }
  }

  /** With the directory not another key's, no key sharing it holds a bundle. */
  lemma SharersEmpty(disk: Disk, domain: string, k: string)
    requires !Blocked(disk, domain) && Component(k) == Component(domain) && k != domain
    ensures Lookup(disk, k) == None
  {
    hide Component, LegalKey;
  }

  lemma PutKeepsInv(disk: Disk, name: string, folder: Folder)
    requires DiskInv(disk) && Proper(name, folder)
    ensures DiskInv(disk[name := folder])
  {
    hide Component, LegalKey;
  }

  // ---------------------------------------------------------------- saving

  lemma SaveRefused(disk: Disk, bundle: Bundle, writes: nat)
    requires LegalKey(bundle.domain)
    ensures Blocked(disk, bundle.domain) ==> SaveStopped(disk, bundle, writes) == (disk, Err(Collision))
    ensures !Blocked(disk, bundle.domain) ==>
              var name := Component(bundle.domain);
              SaveStopped(disk, bundle, writes) ==
              (disk[name := AfterWrites(FolderAt(disk, name), bundle, writes)], Ok(bundle))
  {
    hide Component, LegalKey, AfterWrites;
  }

  /** The state after some of the writes: the store stays consistent, no other key's bundle
      changes, and this key has what its directory now holds. */
  lemma StoppedSave(disk: Disk, bundle: Bundle, writes: nat)
    requires DiskInv(disk) && LegalKey(bundle.domain) && !Blocked(disk, bundle.domain)
    ensures var after := SaveStopped(disk, bundle, writes).0;
            && DiskInv(after)
            && (forall k :: k != bundle.domain ==> Lookup(after, k) == Lookup(disk, k))
            && Lookup(after, bundle.domain) ==
               match Lookup(disk, bundle.domain)
               case None => if writes >= 4 then Some(bundle) else None
               case Some(was) => Some(Mixed(was, bundle, writes))
  {
    hide Component, LegalKey, AfterWrites, FolderAt, Mixed, DiskInv, Lookup, Blocked;
    var name := Component(bundle.domain);
    var folder := FolderAt(disk, name);
    var after := SaveStopped(disk, bundle, writes).0;
    SaveRefused(disk, bundle, writes);
    OwnFolder(disk, bundle.domain);
    WrittenFolder(folder, bundle, writes, name);
    FolderPut(disk, name, AfterWrites(folder, bundle, writes));
    PutKeepsInv(disk, name, AfterWrites(folder, bundle, writes));
    NotBlocked(disk, bundle.domain);
    NotBlocked(after, bundle.domain);
    OwnFolder(after, bundle.domain);
    forall k | k != bundle.domain ensures Lookup(after, k) == Lookup(disk, k) {
      if Component(k) == name {
        SharersEmpty(disk, bundle.domain, k);
        SharersEmpty(after, bundle.domain, k);
      } else {
        LookupElsewhere(disk, after, bundle.domain, k);
      }
    }
  }

  lemma NotBlocked(disk: Disk, domain: string)
    ensures var folder := FolderAt(disk, Component(domain));
            Blocked(disk, domain) <==> folder.meta.Some? && folder.meta.value.domain != domain
  {
    hide Component, FolderAt;
  }

  lemma FolderPut(disk: Disk, name: string, folder: Folder)
    ensures FolderAt(disk[name := folder], name) == folder
    ensures forall other :: other != name ==> FolderAt(disk[name := folder], other) == FolderAt(disk, other)
  {
  }

  /** The files of the old and the new bundle, the first `writes` of them new. */
  function Mixed(was: Bundle, now: Bundle, writes: nat): Bundle {
    var m := was.(certPem := if writes >= 1 then now.certPem else was.certPem,
                   fullchainPem := if writes >= 2 then now.fullchainPem else was.fullchainPem,
                   keyPem := if writes >= 3 then now.keyPem else was.keyPem);
    if writes >= 4 then
      m.(domain := now.domain, domains := now.domains, issuedAt := now.issuedAt, expiresAt := now.expiresAt)
    else m
  }

  lemma WrittenFolder(folder: Folder, bundle: Bundle, writes: nat, name: string)
    requires folder.meta.Some? ==> HasFiles(folder) && folder.meta.value.domain == bundle.domain
    requires LegalKey(bundle.domain) && Component(bundle.domain) == name
    ensures var after := AfterWrites(folder, bundle, writes);
            && Proper(name, after)
            && (after.meta.Some? ==> after.meta.value.domain == bundle.domain && HasFiles(after))
            && (folder.meta.None? ==> (after.meta.Some? <==> writes >= 4))
            && (writes >= 4 ==> after.meta.Some? && BundleIn(after) == bundle)
            && (folder.meta.Some? ==> after.meta.Some? && BundleIn(after) == Mixed(BundleIn(folder), bundle, writes))
  {
    hide Component, LegalKey;
  }

  // ---------------------------------------------------------------- deleting

  lemma DeleteStep(disk: Disk, domain: string)
    requires DiskInv(disk) && LegalKey(domain)
    ensures DiskInv(CertStore.Delete(disk, domain).0)
    ensures Blocked(disk, domain) ==> CertStore.Delete(disk, domain) == (disk, Err(Collision))
    ensures !Blocked(disk, domain) ==>
              && CertStore.Delete(disk, domain).1 == Ok(Lookup(disk, domain).Some?)
              && Lookup(CertStore.Delete(disk, domain).0, domain) == None
              && forall k :: k != domain ==> Lookup(CertStore.Delete(disk, domain).0, k) == Lookup(disk, k)
  {
    hide Component, LegalKey;
    OwnFolder(disk, domain);
    var after := CertStore.Delete(disk, domain).0;
    if !Blocked(disk, domain) {
      forall k | k != domain ensures Lookup(after, k) == Lookup(disk, k) {
        if Component(k) == Component(domain) {
          SharersEmpty(disk, domain, k);
          SharersEmpty(after, domain, k);
        } else {
          LookupElsewhere(disk, after, domain, k);
        }
      }
    }
  }

  lemma LoadStep(disk: Disk, domain: string)
    requires DiskInv(disk) && LegalKey(domain)
    ensures CertStore.Load(disk, domain) == if Blocked(disk, domain) then Err(Collision) else Ok(Lookup(disk, domain))
  {
    hide Component, LegalKey;
    OwnFolder(disk, domain);
  }

  // ---------------------------------------------------------------- every operation

  /** What every operation, crashed ones included, keeps: a consistent store, and every
      other key's bundle. A key whose directory is another's only ever gets an error. */
  lemma Isolation(disk: Disk, op: Op)
    requires DiskInv(disk) && Legal(op)
    ensures DiskInv(FileStep(disk, op).0)
    ensures forall k :: !Concerns(op, k) ==> Lookup(FileStep(disk, op).0, k) == Lookup(disk, k)
    ensures forall k :: Concerns(op, k) && Blocked(disk, k) ==> FileStep(disk, op) == (disk, Raised(Collision))
  {
    hide Component, LegalKey, Lookup, Blocked, DiskInv, SaveStopped, CertStore.Load, CertStore.Delete;
    match op
    case Save(bundle) =>
      SaveRefused(disk, bundle, 4);
      if !Blocked(disk, bundle.domain) { StoppedSave(disk, bundle, 4); }
    case Crash(bundle, writes) =>
      SaveRefused(disk, bundle, writes);
      if !Blocked(disk, bundle.domain) { StoppedSave(disk, bundle, writes); }
    case Delete(domain) => DeleteStep(disk, domain);
    case Load(domain) => LoadStep(disk, domain);
    case List =>
  }

  /** A directory is another key's exactly when that key holds a bundle and the two collide. */
  lemma BlockedByOwner(disk: Disk, certs: map<string, Bundle>, domain: string)
    requires DiskInv(disk) && Represents(disk, certs) && LegalKey(domain)
    ensures Blocked(disk, domain) <==> exists k :: k in certs && k != domain && Component(k) == Component(domain)
  {
    hide Component, LegalKey;
    OwnFolder(disk, domain);
    if Blocked(disk, domain) {
      var owner := FolderAt(disk, Component(domain)).meta.value.domain;
      assert Lookup(disk, owner).Some?;
      assert owner in certs;
    }
    forall k | k in certs && k != domain && Component(k) == Component(domain) ensures Blocked(disk, domain) {
      assert Lookup(disk, k).Some?;
    }
  }

  lemma ListsSame(disk: Disk, certs: map<string, Bundle>)
    requires DiskInv(disk) && Represents(disk, certs)
    ensures AllBundles(disk) == set k | k in certs :: certs[k]
  {
    hide Component, LegalKey;
    var all := set k | k in certs :: certs[k];
    forall b | b in AllBundles(disk) ensures b in all {
      var name :| name in disk && disk[name].meta.Some? && (assert Proper(name, disk[name]); BundleIn(disk[name])) == b;
      assert Lookup(disk, b.domain) == Some(b);
    }
    forall b | b in all ensures b in AllBundles(disk) {
      var k :| k in certs && certs[k] == b;
      assert Lookup(disk, k) == Some(b);
      assert Component(k) in disk;
    }
  }

  /** On a key whose directory is its own, every operation answers like the in-memory store
      and leaves the same bundles; a crashed first save counts once its last write is done. */
  lemma StepAgrees(disk: Disk, certs: map<string, Bundle>, op: Op)
    requires DiskInv(disk) && Represents(disk, certs) && Legal(op)
    requires forall k :: Concerns(op, k) ==> !Blocked(disk, k)
    requires op.Crash? ==> op.bundle.domain !in certs
    ensures FileStep(disk, op).1 == MemoryStep(certs, op).1
    ensures Represents(FileStep(disk, op).0, MemoryStep(certs, op).0)
  {
    hide Component, LegalKey, Lookup, Blocked, DiskInv, SaveStopped, CertStore.Load, CertStore.Delete, Mixed;
    match op
    case Save(bundle) =>
      SaveRefused(disk, bundle, 4);
      StoppedSave(disk, bundle, 4);
      assert Concerns(op, bundle.domain);
      if bundle.domain in certs { AllWritten(certs[bundle.domain], bundle); }
    case Crash(bundle, writes) =>
      assert Concerns(op, bundle.domain);
      SaveRefused(disk, bundle, writes);
      StoppedSave(disk, bundle, writes);
    case Delete(domain) =>
      assert Concerns(op, domain);
      DeleteStep(disk, domain);
    case Load(domain) =>
      assert Concerns(op, domain);
      LoadStep(disk, domain);
    case List => ListsSame(disk, certs);
  }

  lemma AllWritten(was: Bundle, now: Bundle)
    ensures Mixed(was, now, 4) == now
  {
  }

  // ---------------------------------------------------------------- whole runs

  function FileRun(ops: seq<Op>): Disk {
    if ops == [] then map[] else FileStep(FileRun(ops[..|ops| - 1]), ops[|ops| - 1]).0
  }

  function MemoryRun(ops: seq<Op>): map<string, Bundle> {
    if ops == [] then map[] else MemoryStep(MemoryRun(ops[..|ops| - 1]), ops[|ops| - 1]).0
  }

  /** No two keys of the run share a directory. */
  ghost predicate NoCollision(ops: seq<Op>) {
    forall i, j, k, l ::
      0 <= i < |ops| && 0 <= j < |ops| && Concerns(ops[i], k) && Concerns(ops[j], l) && Component(k) == Component(l)
      ==> k == l
  }

  /** Only saves of keys not stored at the time are cut short. */
  predicate CrashesOnFirstSaves(ops: seq<Op>) {
    forall i :: 0 <= i < |ops| && ops[i].Crash? ==> ops[i].bundle.domain !in MemoryRun(ops[..i])
  }

  predicate AllLegal(ops: seq<Op>) {
    forall i :: 0 <= i < |ops| ==> Legal(ops[i])
  }

  lemma {:induction false} StoredWereSaved(ops: seq<Op>, k: string)
    requires k in MemoryRun(ops)
    ensures exists i :: 0 <= i < |ops| && Concerns(ops[i], k)
  {
    if ops != [] {
      var front, last := ops[..|ops| - 1], ops[|ops| - 1];
      if k in MemoryRun(front) {
        StoredWereSaved(front, k);
        var i :| 0 <= i < |front| && Concerns(front[i], k);
        assert ops[i] == front[i];
      } else {
        assert Concerns(ops[|ops| - 1], k);
      }
    }
  }

  /** Over every sequence of operations on valid keys that do not collide, first saves cut
      short included, the file store holds what the in-memory store holds. */
  lemma {:induction false} RunsAgree(ops: seq<Op>)
    requires AllLegal(ops) && NoCollision(ops) && CrashesOnFirstSaves(ops)
    ensures DiskInv(FileRun(ops)) && Represents(FileRun(ops), MemoryRun(ops))
    ensures ops != [] ==>
              var front, last := ops[..|ops| - 1], ops[|ops| - 1];
              FileStep(FileRun(front), last).1 == MemoryStep(MemoryRun(front), last).1
  {
    hide Component, LegalKey, Lookup, Blocked, DiskInv, FileStep, MemoryStep, Represents, Legal, Concerns;
    if ops == [] {
      EmptyStores();
    } else {
      var front, last := ops[..|ops| - 1], ops[|ops| - 1];
      assert forall i :: 0 <= i < |front| ==> front[i] == ops[i] && front[..i] == ops[..i];
      RunsAgree(front);
      assert last == ops[|ops| - 1];
      Isolation(FileRun(front), last);
      forall k | Concerns(last, k) ensures !Blocked(FileRun(front), k) {
        UnblockedAtEnd(ops, k);
      }
      StepAgrees(FileRun(front), MemoryRun(front), last);
    }
  }

  lemma EmptyStores()
    ensures DiskInv(map[]) && Represents(map[], map[])
  {
  }

  lemma ConcernsLegal(op: Op, k: string)
    requires Legal(op) && Concerns(op, k)
    ensures LegalKey(k)
  {
  }

  lemma UnblockedAtEnd(ops: seq<Op>, k: string)
    requires ops != [] && AllLegal(ops) && NoCollision(ops) && Concerns(ops[|ops| - 1], k)
    requires var front := ops[..|ops| - 1]; DiskInv(FileRun(front)) && Represents(FileRun(front), MemoryRun(front))
    ensures !Blocked(FileRun(ops[..|ops| - 1]), k)
  {
    hide Component, LegalKey, Lookup, Blocked, DiskInv, FileRun, MemoryRun, Represents, Legal, Concerns;
    var front := ops[..|ops| - 1];
    ConcernsLegal(ops[|ops| - 1], k);
    BlockedByOwner(FileRun(front), MemoryRun(front), k);
    forall other | other in MemoryRun(front) && Component(other) == Component(k) ensures other == k {
      StoredApart(ops, other, k);
    }
  }

  lemma StoredApart(ops: seq<Op>, other: string, k: string)
    requires ops != [] && NoCollision(ops) && Concerns(ops[|ops| - 1], k) && other in MemoryRun(ops[..|ops| - 1])
    ensures Component(other) == Component(k) ==> other == k
  {
    hide Component, MemoryRun, Concerns;
    var front := ops[..|ops| - 1];
    StoredWereSaved(front, other);
    var i :| 0 <= i < |front| && Concerns(front[i], other);
    assert ops[i] == front[i];
  }

  // ---------------------------------------------------------------- crashes

  /** A first save that stops after any of its four writes leaves the key absent until the
      metadata is in place and the whole bundle afterwards; every other key is as it was. */
  lemma CrashedFirstSave(disk: Disk, bundle: Bundle, writes: nat)
    requires DiskInv(disk) && LegalKey(bundle.domain) && CertStore.Load(disk, bundle.domain) == Ok(None)
    ensures var after := SaveStopped(disk, bundle, writes).0;
            && CertStore.Load(after, bundle.domain) == Ok(if writes >= 4 then Some(bundle) else None)
            && DiskInv(after)
            && forall k :: k != bundle.domain ==> Lookup(after, k) == Lookup(disk, k)
  {
    hide Component, LegalKey, Lookup, Blocked, DiskInv, SaveStopped, CertStore.Load, Mixed;
    LoadStep(disk, bundle.domain);
    StoppedSave(disk, bundle, writes);
    var after := SaveStopped(disk, bundle, writes).0;
    LoadStep(after, bundle.domain);
    StaysUnblocked(disk, bundle, writes);
  }

  lemma StaysUnblocked(disk: Disk, bundle: Bundle, writes: nat)
    requires LegalKey(bundle.domain) && !Blocked(disk, bundle.domain)
    ensures !Blocked(SaveStopped(disk, bundle, writes).0, bundle.domain)
  {
    hide Component, LegalKey;
  }

  /** How many of the four files of the two bundles differ. */
  function FilesDiffering(a: Bundle, b: Bundle): nat {
    (if a.certPem != b.certPem then 1 else 0) + (if a.fullchainPem != b.fullchainPem then 1 else 0)
    + (if a.keyPem != b.keyPem then 1 else 0) + (if MetaOf(a) != MetaOf(b) then 1 else 0)
  }

  /** Replacing a stored bundle is all-or-nothing at every crash point exactly when at most
      one of its files changes. Otherwise some crash leaves a bundle that was never saved,
      such as a new certificate beside the old key. */
  lemma CrashedResave(disk: Disk, was: Bundle, bundle: Bundle)
    requires DiskInv(disk) && CertStore.Load(disk, bundle.domain) == Ok(Some(was))
    ensures (forall writes: nat ::
              CertStore.Load(SaveStopped(disk, bundle, writes).0, bundle.domain) in {Ok(Some(was)), Ok(Some(bundle))})
            <==> FilesDiffering(was, bundle) <= 1
  {
    hide Component, LegalKey, Lookup, Blocked, DiskInv, SaveStopped, Mixed, FilesDiffering, MetaOf;
    LoadedIsLegal(disk, bundle.domain);
    LoadStep(disk, bundle.domain);
    forall writes: nat
      ensures CertStore.Load(SaveStopped(disk, bundle, writes).0, bundle.domain) == Ok(Some(Mixed(was, bundle, writes)))
    {
      StoppedSave(disk, bundle, writes);
      LoadStep(SaveStopped(disk, bundle, writes).0, bundle.domain);
      StaysUnblocked(disk, bundle, writes);
      assert Lookup(disk, bundle.domain) == Some(was);
    }
    MixedExact(was, bundle);
  }

  lemma LoadedIsLegal(disk: Disk, domain: string)
    requires CertStore.Load(disk, domain).Ok?
    ensures LegalKey(domain)
    ensures CertStore.Load(disk, domain).value.Some? ==> CertStore.Load(disk, domain).value.value.domain == domain
  {
    hide Component, LegalKey;
  }

  lemma MixedExact(was: Bundle, now: Bundle)
    requires was.domain == now.domain
    ensures (forall writes: nat :: Mixed(was, now, writes) in {was, now}) <==> FilesDiffering(was, now) <= 1
  {
    if was.certPem != now.certPem {
      assert Mixed(was, now, 1) != was;
    } else if was.fullchainPem != now.fullchainPem {
      assert Mixed(was, now, 2) != was;
    } else if was.keyPem != now.keyPem {
      assert Mixed(was, now, 3) != was;
    }
  }

  // ---------------------------------------------------------------- a delete cut short

  /** Some file was removed, and the metadata was not. */
  predicate Halfway(order: seq<File>, k: nat)
    requires Arrangement(order)
  {
    0 < k < 5 && MetaFile !in order[..k]
  }

  lemma {:induction false} RemovedFiles(folder: Folder, files: seq<File>)
    ensures var after := WithoutFiles(folder, files);
            && after.cert == (if CertFile in files then None else folder.cert)
            && after.fullchain == (if FullchainFile in files then None else folder.fullchain)
            && after.key == (if KeyFile in files then None else folder.key)
            && after.meta == (if MetaFile in files then None else folder.meta)
  {
    if files != [] {
      var front, last := files[..|files| - 1], files[|files| - 1];
      RemovedFiles(folder, front);
      assert files == front + [last];
    }
  }

  lemma HalfwayMisses(folder: Folder, order: seq<File>, k: nat)
    requires Arrangement(order) && k < 5 && folder.meta.Some? && HasFiles(folder)
    ensures var after := WithoutFiles(folder, order[..k]);
            && (after.meta.Some? <==> MetaFile !in order[..k])
            && (after.meta.Some? ==> after.meta == folder.meta)
            && (after.meta.Some? ==> (HasFiles(after) <==> k == 0))
            && (k == 0 ==> after == folder)
  {
    RemovedFiles(folder, order[..k]);
    if k > 0 { assert order[0] in order[..k]; }
  }

  /** A delete of a stored bundle, stopped after any of its steps, whatever the order in which
      the files go: the store stays consistent exactly if nothing or the metadata is gone by
      then; otherwise the key can only be met with an error, and so can the listing of the
      whole store. No other key's bundle changes. */
  lemma CrashedDelete(disk: Disk, domain: string, order: seq<File>, k: nat, was: Bundle)
    requires DiskInv(disk) && Arrangement(order) && CertStore.Load(disk, domain) == Ok(Some(was))
    ensures var after := DeleteStopped(disk, domain, order, k).0;
            && (DiskInv(after) <==> !Halfway(order, k))
            && CertStore.Load(after, domain) ==
               (if Halfway(order, k) then Err(FileMissing) else Ok(if k == 0 then Some(was) else None))
            && forall other :: other != domain ==> Lookup(after, other) == Lookup(disk, other)
  {
    hide Component, LegalKey, WithoutFiles, DiskInv, CertStore.Load, Lookup, Blocked, Halfway;
    LoadedIsLegal(disk, domain);
    LoadStep(disk, domain);
    DeleteStep(disk, domain);
    if k < 5 {
      StoppedDelete(disk, domain, order, k, was);
    } else {
      DeleteUnblocks(disk, domain);
      LoadStep(CertStore.Delete(disk, domain).0, domain);
      NotHalfway(order, k);
    }
  }

  lemma NotHalfway(order: seq<File>, k: nat)
    requires Arrangement(order)
    ensures Halfway(order, k) <==> 0 < k < 5 && MetaFile !in order[..k]
  {
  }

  lemma DeleteUnblocks(disk: Disk, domain: string)
    requires !Blocked(disk, domain)
    ensures !Blocked(CertStore.Delete(disk, domain).0, domain)
  {
    hide Component, LegalKey;
  }

  lemma StoppedDelete(disk: Disk, domain: string, order: seq<File>, k: nat, was: Bundle)
    requires DiskInv(disk) && Arrangement(order) && k < 5
    requires LegalKey(domain) && !Blocked(disk, domain) && Lookup(disk, domain) == Some(was)
    ensures var after := DeleteStopped(disk, domain, order, k).0;
            && (DiskInv(after) <==> !Halfway(order, k))
            && CertStore.Load(after, domain) ==
               (if Halfway(order, k) then Err(FileMissing) else Ok(if k == 0 then Some(was) else None))
            && forall other :: other != domain ==> Lookup(after, other) == Lookup(disk, other)
  {
    hide Component, LegalKey, WithoutFiles, DiskInv, Lookup, Blocked, HasFiles;
    var name := Component(domain);
    OwnStored(disk, domain, was);
    var folder := disk[name];
    var next := WithoutFiles(folder, order[..k]);
    HalfwayMisses(folder, order, k);
    FolderPut(disk, name, next);
    PutInvExact(disk, name, next);
    var after := disk[name := next];
    forall other | other != domain ensures Lookup(after, other) == Lookup(disk, other) {
      if Component(other) == name {
        NotBlocked(disk, domain);
        NotBlocked(after, domain);
        SharersEmpty(disk, domain, other);
        SharersEmpty(after, domain, other);
      } else {
        LookupElsewhere(disk, after, domain, other);
      }
    }
  }

  lemma OwnStored(disk: Disk, domain: string, was: Bundle)
    requires Lookup(disk, domain) == Some(was)
    ensures Component(domain) in disk
    ensures var folder := disk[Component(domain)];
            folder.meta.Some? && HasFiles(folder) && folder.meta.value.domain == domain && BundleIn(folder) == was
  {
    hide Component, LegalKey;
  }

  lemma PutInvExact(disk: Disk, name: string, folder: Folder)
    requires DiskInv(disk)
    ensures DiskInv(disk[name := folder]) <==> Proper(name, folder)
  {
    hide Component, LegalKey, HasFiles;
    assert name in disk[name := folder];
  }

  /** Deleting is safe at every crash point exactly when the metadata is the first file to go. */
  lemma SafeOrder(disk: Disk, domain: string, order: seq<File>, was: Bundle)
    requires DiskInv(disk) && Arrangement(order) && CertStore.Load(disk, domain) == Ok(Some(was))
    ensures (forall k: nat :: DiskInv(DeleteStopped(disk, domain, order, k).0)) <==> order[0] == MetaFile
  {
    hide DiskInv, DeleteStopped, CertStore.Load, Lookup;
    forall k: nat ensures DiskInv(DeleteStopped(disk, domain, order, k).0) <==> !Halfway(order, k) {
      CrashedDelete(disk, domain, order, k, was);
    }
    if order[0] == MetaFile {
      forall k: nat ensures !Halfway(order, k) {
        if 0 < k < 5 { assert order[0] in order[..k]; }
      }
    } else {
      assert Halfway(order, 1);
    }
  }

  /** Every other directory can be read. */
  predicate ProperElsewhere(disk: Disk, name: string) {
    forall other :: other in disk && other != name ==> Proper(other, disk[other])
  }

  lemma CrashedState(disk: Disk, domain: string, order: seq<File>, k: nat, was: Bundle)
    requires DiskInv(disk) && Arrangement(order) && LegalKey(domain) && Lookup(disk, domain) == Some(was)
    ensures var after := DeleteStopped(disk, domain, order, k).0;
            !Blocked(after, domain) && ProperElsewhere(after, Component(domain))
  {
    hide Component, LegalKey, WithoutFiles, HasFiles, Lookup;
    OwnStored(disk, domain, was);
    var folder := disk[Component(domain)];
    if k < 5 { HalfwayMisses(folder, order, k); }
  }

  /** A save makes its own directory whole, and touches no other. */
  lemma SaveRepairs(disk: Disk, bundle: Bundle)
    requires LegalKey(bundle.domain) && !Blocked(disk, bundle.domain) && ProperElsewhere(disk, Component(bundle.domain))
    ensures var after := SaveStopped(disk, bundle, 4).0;
            && DiskInv(after) && !Blocked(after, bundle.domain) && Lookup(after, bundle.domain) == Some(bundle)
            && forall other :: other != bundle.domain ==> Lookup(after, other) == Lookup(disk, other)
  {
    hide Component, LegalKey;
    var name := Component(bundle.domain);
    var after := SaveStopped(disk, bundle, 4).0;
    SaveRefused(disk, bundle, 4);
    forall other | other != bundle.domain ensures Lookup(after, other) == Lookup(disk, other) {
      if Component(other) == name {
        SharersEmpty(disk, bundle.domain, other);
        SharersEmpty(after, bundle.domain, other);
      } else {
        LookupElsewhere(disk, after, bundle.domain, other);
      }
    }
  }

  /** After any such crash, saving a bundle under the key makes the store whole again. */
  lemma RepairedBySave(disk: Disk, domain: string, order: seq<File>, k: nat, was: Bundle, bundle: Bundle)
    requires DiskInv(disk) && Arrangement(order) && CertStore.Load(disk, domain) == Ok(Some(was))
    requires bundle.domain == domain
    ensures var after := SaveStopped(DeleteStopped(disk, domain, order, k).0, bundle, 4).0;
            && DiskInv(after) && CertStore.Load(after, domain) == Ok(Some(bundle))
            && forall other :: other != domain ==> Lookup(after, other) == Lookup(disk, other)
  {
    hide Component, LegalKey, DiskInv, Lookup, Blocked, CertStore.Load, SaveStopped, DeleteStopped, Halfway,
      ProperElsewhere;
    LoadedIsLegal(disk, domain);
    LoadStep(disk, domain);
    CrashedDelete(disk, domain, order, k, was);
    CrashedState(disk, domain, order, k, was);
    var crashed := DeleteStopped(disk, domain, order, k).0;
    SaveRepairs(crashed, bundle);
    LoadStep(SaveStopped(crashed, bundle, 4).0, domain);
  }
}
