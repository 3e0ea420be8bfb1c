/** Certificate storage: the in-memory store, the file store with its portable directory
    names, and what a crash between two file writes leaves behind. */
module CertStore {
  import opened Wrappers
  import opened Text
  import opened Json

  /** `CertBundle` without its file paths; times are instants. */
  datatype Bundle = Bundle(
    domain: string, domains: seq<string>, certPem: Bytes, fullchainPem: Bytes, keyPem: Bytes, issuedAt: int,
      expiresAt: int)

  /** `CertMeta`, the contents of `meta.json`. */
  datatype Meta = Meta(domain: string, domains: seq<string>, issuedAt: int, expiresAt: int)

  function MetaOf(bundle: Bundle): Meta {
    Meta(bundle.domain, bundle.domains, bundle.issuedAt, bundle.expiresAt)
  }

  /** The four files of a certificate directory; a file may be missing. */
  datatype Folder = Folder(cert: Option<Bytes>, fullchain: Option<Bytes>, key: Option<Bytes>, meta: Option<Meta>)

  const EMPTY_FOLDER: Folder := Folder(None, None, None, None)

  type Disk = map<string, Folder>

  datatype StoreError = InvalidKey | Collision | FileMissing

  // ---------------------------------------------------------------- directory names

  const PREFIX := "lacme-v2-"

  const INVALID_CHARS: set<char> := {'<', '>', ':', '"', '/', '\\', '|', '?', '*'}

  /** `_validate_domain_key`. */
  predicate LegalKey(domain: string) {
    domain != "" && domain != "." && domain != ".." && '/' !in domain && '\\' !in domain
  }

  lemma LegalKeys(domain: string)
    ensures LegalKey(domain) <==> domain !in {"", ".", ".."} && '/' !in domain && '\\' !in domain
  {
  }

  /** The files of a whole bundle. */
  function FilesOf(bundle: Bundle): Folder {
    Folder(Some(bundle.certPem), Some(bundle.fullchainPem), Some(bundle.keyPem),
           Some(Meta(bundle.domain, bundle.domains, bundle.issuedAt, bundle.expiresAt)))
  }

  function StripRight(s: string): string {
    if s != "" && (s[|s| - 1] == ' ' || s[|s| - 1] == '.') then StripRight(s[..|s| - 1]) else s
  }

  function UpperChar(c: char): char {
    if 'a' <= c <= 'z' then (c as int - 32) as char else c
  }

  function Upper(s: string): string {
    seq(|s|, i requires 0 <= i < |s| => UpperChar(s[i]))
  }

  predicate Reserved(name: string) {
    || name in {"CON", "PRN", "AUX", "NUL"}
    || (|name| == 4 && name[..3] in {"COM", "LPT"} && '1' <= name[3] <= '9')
  }

  /** `_is_portable_domain_component`, on ASCII text. */
  predicate PortableComponent(domain: string) {
    && domain != "." && domain != ".."
    && (forall i :: 0 <= i < |domain| ==> domain[i] as int >= 32 && domain[i] !in INVALID_CHARS)
    && (domain != "" ==> domain[|domain| - 1] != ' ' && domain[|domain| - 1] != '.')
    && !Reserved(Upper(StripRight(Split(domain, '.')[0])))
    && |domain| <= 255
  }

  predicate KeptAsName(domain: string) {
    !(PREFIX <= domain) && PortableComponent(domain) && |domain| <= 200
  }

  predicate IsHexDigest(s: string) {
    |s| == 64 && forall i :: 0 <= i < |s| ==> '0' <= s[i] <= '9' || 'a' <= s[i] <= 'f'
  }

  /** A function that could be SHA-256 in hexadecimal. */
  type HexHash = h: string -> string | forall s :: IsHexDigest(h(s))
    witness (s => seq(64, _ => '0'))

  /** The hexadecimal SHA-256 digest of a key's bytes, left arbitrary among such functions. */
  const Digest: HexHash

  /** `_domain_component` on a valid key. */
  function Component(domain: string): string {
    if KeptAsName(domain) then domain else PREFIX + Digest(domain)
  }

  /** Two keys share a directory only through a digest collision of keys neither of which
      is its own directory name. */
  lemma ComponentsCollide(a: string, b: string)
    ensures Component(a) == Component(b) <==>
            a == b || (!KeptAsName(a) && !KeptAsName(b) && Digest(a) == Digest(b))
  {
    hide PortableComponent;
    if Component(a) == Component(b) && !KeptAsName(a) && !KeptAsName(b) {
      assert Digest(a) == Component(a)[|PREFIX|..];
      assert Digest(b) == Component(b)[|PREFIX|..];
    }
  }

  // ---------------------------------------------------------------- the file store's operations

  predicate HasFiles(folder: Folder) {
    folder.cert.Some? && folder.fullchain.Some? && folder.key.Some?
  }

  function BundleIn(folder: Folder): Bundle
    requires folder.meta.Some? && HasFiles(folder)
  {
    var meta := folder.meta.value;
    Bundle(meta.domain, meta.domains, folder.cert.value, folder.fullchain.value, folder.key.value, meta.issuedAt,
      meta.expiresAt)
  }

  function FolderAt(disk: Disk, name: string): Folder {
    if name in disk then disk[name] else EMPTY_FOLDER
  }

  /** `_load_cert_from_dir`. */
  function LoadFolder(folder: Folder, expected: string): Result<Bundle, StoreError>
    requires folder.meta.Some?
  {
    if folder.meta.value.domain != expected then Err(Collision)
    else if !HasFiles(folder) then Err(FileMissing)
    else Ok(BundleIn(folder))
  }

  /** `load_cert`. */
  function Load(disk: Disk, domain: string): Result<Option<Bundle>, StoreError> {
    if !LegalKey(domain) then Err(InvalidKey)
    else
      var folder := FolderAt(disk, Component(domain));
      if folder.meta.None? then Ok(None)
      else
        match LoadFolder(folder, domain)
        case Err(e) => Err(e)
        case Ok(bundle) => Ok(Some(bundle))
  }

  /** The directory after the first `k` of the four writes of `save_cert`. */
  function AfterWrites(folder: Folder, bundle: Bundle, k: nat): Folder {
    Folder(if k >= 1 then Some(bundle.certPem) else folder.cert,
           if k >= 2 then Some(bundle.fullchainPem) else folder.fullchain,
           if k >= 3 then Some(bundle.keyPem) else folder.key,
           if k >= 4 then Some(MetaOf(bundle)) else folder.meta)
  }

  /** `save_cert`, stopped after `k` writes; the error is reported before any write. */
  function SaveStopped(disk: Disk, bundle: Bundle, k: nat): (Disk, Result<Bundle, StoreError>) {
    if !LegalKey(bundle.domain) then (disk, Err(InvalidKey))
    else
      var name := Component(bundle.domain);
      var folder := FolderAt(disk, name);
      if folder.meta.Some? && folder.meta.value.domain != bundle.domain then (disk, Err(Collision))
      else (disk[name := AfterWrites(folder, bundle, k)], Ok(bundle))
  }

  lemma SavedFiles(disk: Disk, bundle: Bundle)
    ensures var (after, r) := SaveStopped(disk, bundle, 4);
            r.Ok? ==> after == disk[Component(bundle.domain) := FilesOf(bundle)]
  {
    hide Component, LegalKey;
  }

  /** `delete_cert`. */
  function Delete(disk: Disk, domain: string): (Disk, Result<bool, StoreError>) {
    if !LegalKey(domain) then (disk, Err(InvalidKey))
    else
      var name := Component(domain);
      if name !in disk || disk[name].meta.None? then (disk, Ok(false))
      else if disk[name].meta.value.domain != domain then (disk, Err(Collision))
      else (disk - {name}, Ok(true))
  }

  /** The files of a certificate directory, by name. */
  datatype File = CertFile | FullchainFile | KeyFile | MetaFile

  /** Each of the four files once. */
  predicate Arrangement(order: seq<File>) {
    |order| == 4 && forall i, j :: 0 <= i < j < 4 ==> order[i] != order[j]
  }

  function WithoutFile(folder: Folder, file: File): Folder {
    match file
    case CertFile => folder.(cert := None)
    case FullchainFile => folder.(fullchain := None)
    case KeyFile => folder.(key := None)
    case MetaFile => folder.(meta := None)
  }

  function WithoutFiles(folder: Folder, files: seq<File>): Folder {
    if files == [] then folder else WithoutFile(WithoutFiles(folder, files[..|files| - 1]), files[|files| - 1])
  }

  /** `delete_cert`, stopped after `k` steps: `rmtree` unlinks the files in the order it finds
      them, and its fifth step removes the directory. */
  function DeleteStopped(disk: Disk, domain: string, order: seq<File>, k: nat): (Disk, Result<bool, StoreError>)
    requires Arrangement(order)
  {
    var (after, r) := Delete(disk, domain);
    if r != Ok(true) || k >= 5 then (after, r)
    else
      var name := Component(domain);
      (disk[name := WithoutFiles(FolderAt(disk, name), order[..k])], r)
  }

  /** A directory that `list_certs` can read: a whole bundle stored where its key says. */
  predicate Proper(name: string, folder: Folder) {
    folder.meta.Some? ==>
      HasFiles(folder) && LegalKey(folder.meta.value.domain) && Component(folder.meta.value.domain) == name
  }

  predicate DiskInv(disk: Disk) {
    forall name :: name in disk ==> Proper(name, disk[name])
  }

  /** The whole bundle stored under a key, if there is one. */
  function Lookup(disk: Disk, domain: string): Option<Bundle> {
    var folder := FolderAt(disk, Component(domain));
    if LegalKey(domain) && folder.meta.Some? && HasFiles(folder) && folder.meta.value.domain == domain
    then Some(BundleIn(folder)) else None
  }

  // ---------------------------------------------------------------- sorting by key

  /** Python's order on strings. */
  predicate Before(a: string, b: string) {
    b != "" && (a == "" || a[0] < b[0] || (a[0] == b[0] && Before(a[1..], b[1..])))
  }

  lemma {:induction false} BeforeTotal(a: string, b: string)
    ensures Before(a, b) || Before(b, a) || a == b
  {
    if a != "" && b != "" && a[0] == b[0] {
      BeforeTotal(a[1..], b[1..]);
      assert a == [a[0]] + a[1..] && b == [b[0]] + b[1..];
    }
  }

  lemma {:induction false} BeforeTransitive(a: string, b: string, c: string)
    requires Before(a, b) && Before(b, c)
    ensures Before(a, c)
  {
    if a != "" && a[0] == b[0] && b[0] == c[0] { BeforeTransitive(a[1..], b[1..], c[1..]); }
  }

  lemma {:induction false} BeforeIrreflexive(a: string)
    ensures !Before(a, a)
  {
    if a != "" { BeforeIrreflexive(a[1..]); }
  }

  /** The strings agree up to here, and here the first one ends or has the lesser character. */
  predicate DiffersAt(a: string, b: string, i: nat) {
    && i <= |a| && i < |b| && a[..i] == b[..i]
    && (i == |a| || a[i] < b[i])
  }

  /** It is the lexicographic order by character. */
  lemma {:induction false} BeforeExact(a: string, b: string)
    ensures Before(a, b) <==> exists i: nat :: DiffersAt(a, b, i)
  {
    if b == "" {
      assert forall i: nat :: !DiffersAt(a, b, i);
    } else if a == "" || a[0] < b[0] {
      assert DiffersAt(a, b, 0);
    } else if a[0] == b[0] {
      BeforeExact(a[1..], b[1..]);
      if i: nat :| DiffersAt(a[1..], b[1..], i) { DiffersLater(a, b, i); }
      if i: nat :| DiffersAt(a, b, i) { DiffersEarlier(a, b, i); }
    } else {
      forall i: nat ensures !DiffersAt(a, b, i) { NeverDiffers(a, b, i); }
    }
  }

  lemma DiffersLater(a: string, b: string, i: nat)
    requires a != "" && b != "" && a[0] == b[0] && DiffersAt(a[1..], b[1..], i)
    ensures DiffersAt(a, b, i + 1)
  {
    assert a[..i + 1] == [a[0]] + a[1..][..i] && b[..i + 1] == [b[0]] + b[1..][..i];
  }

  lemma DiffersEarlier(a: string, b: string, i: nat)
    requires a != "" && b != "" && a[0] == b[0] && DiffersAt(a, b, i)
    ensures i > 0 && DiffersAt(a[1..], b[1..], i - 1)
  {
    assert a[1..][..i - 1] == a[..i][1..] && b[1..][..i - 1] == b[..i][1..];
  }

  lemma NeverDiffers(a: string, b: string, i: nat)
    requires a != "" && b != "" && a[0] > b[0]
    ensures !DiffersAt(a, b, i)
  {
    if 0 < i <= |a| && i <= |b| { assert a[..i][0] == a[0] && b[..i][0] == b[0]; }
  }

  predicate Ascending(bundles: seq<Bundle>) {
    forall i, j :: 0 <= i < j < |bundles| ==> Before(bundles[i].domain, bundles[j].domain)
  }

  /** Where `sorted(..., key=domain)` puts one more bundle. */
  function Place(sorted: seq<Bundle>, bundle: Bundle): (k: nat)
    ensures k <= |sorted|
    ensures forall i :: 0 <= i < k ==> Before(sorted[i].domain, bundle.domain)
    ensures k < |sorted| ==> !Before(sorted[k].domain, bundle.domain)
  {
    if sorted == [] || !Before(sorted[0].domain, bundle.domain) then 0 else 1 + Place(sorted[1..], bundle)
  }

  function Insert(sorted: seq<Bundle>, bundle: Bundle): seq<Bundle> {
    var k := Place(sorted, bundle);
    sorted[..k] + [bundle] + sorted[k..]
  }

  lemma InsertMembers(sorted: seq<Bundle>, bundle: Bundle, b: Bundle)
    ensures b in Insert(sorted, bundle) <==> b == bundle || b in sorted
  {
    hide Before, Place;
    var k := Place(sorted, bundle);
    assert sorted == sorted[..k] + sorted[k..];
  }

  lemma AscendingPair(sorted: seq<Bundle>, i: nat, j: nat)
    requires Ascending(sorted) && i < j < |sorted|
    ensures Before(sorted[i].domain, sorted[j].domain)
  {
    hide Before;
  }

  lemma PlacedBefore(sorted: seq<Bundle>, bundle: Bundle, i: nat)
    requires Ascending(sorted) && Place(sorted, bundle) <= i < |sorted|
             && sorted[Place(sorted, bundle)].domain != bundle.domain
    ensures Before(bundle.domain, sorted[i].domain)
  {
    hide Before, Place, Ascending;
    var k := Place(sorted, bundle);
    BeforeTotal(sorted[k].domain, bundle.domain);
    if i > k {
      AscendingPair(sorted, k, i);
      BeforeTransitive(bundle.domain, sorted[k].domain, sorted[i].domain);
    }
  }

  lemma InsertAscending(sorted: seq<Bundle>, bundle: Bundle)
    requires Ascending(sorted) && forall i :: 0 <= i < |sorted| ==> sorted[i].domain != bundle.domain
    ensures Ascending(Insert(sorted, bundle))
  {
    hide Before, Place;
    var k, all := Place(sorted, bundle), Insert(sorted, bundle);
    forall i, j | 0 <= i < j < |all| ensures Before(all[i].domain, all[j].domain) {
      if i == k {
        PlacedBefore(sorted, bundle, j - 1);
      } else if i < k && j > k {
        assert all[j] == sorted[j - 1];
      }
    }
  }

  // ---------------------------------------------------------------- the classes

  /** The states the disk goes through in a save that is not refused. */
  function StatesOfSave(disk: Disk, bundle: Bundle): seq<Disk> {
    seq(5, k => if k >= 0 then SaveStopped(disk, bundle, k).0 else disk)
  }

  lemma FiveStates(disk: Disk, bundle: Bundle)
    requires SaveStopped(disk, bundle, 4).1.Ok?
    ensures var name := Component(bundle.domain);
            var folder := FolderAt(disk, name);
            var d0 := disk[name := folder];
            var d1 := d0[name := folder.(cert := Some(bundle.certPem))];
            var d2 := d1[name := d1[name].(fullchain := Some(bundle.fullchainPem))];
            var d3 := d2[name := d2[name].(key := Some(bundle.keyPem))];
            var d4 := d3[name := d3[name].(meta := Some(MetaOf(bundle)))];
            StatesOfSave(disk, bundle) == [d0, d1, d2, d3, d4]
  {
    hide KeptAsName, LegalKey, Component;
    var name := Component(bundle.domain);
    var folder := FolderAt(disk, name);
    var d0 := disk[name := folder];
    Overwritten(disk, name, AfterWrites(folder, bundle, 0), AfterWrites(folder, bundle, 1));
    Overwritten(disk, name, AfterWrites(folder, bundle, 1), AfterWrites(folder, bundle, 2));
    Overwritten(disk, name, AfterWrites(folder, bundle, 2), AfterWrites(folder, bundle, 3));
    Overwritten(disk, name, AfterWrites(folder, bundle, 3), AfterWrites(folder, bundle, 4));
  }

  lemma Overwritten(disk: Disk, name: string, first: Folder, second: Folder)
    ensures disk[name := first][name := second] == disk[name := second]
    ensures disk[name := first] - {name} == disk - {name}
  {
  }

  /** The states the disk goes through in a delete that finds its key. */
  function StatesOfDelete(disk: Disk, domain: string, order: seq<File>): seq<Disk>
    requires Arrangement(order)
  {
    seq(5, k => if k >= 0 then DeleteStopped(disk, domain, order, k + 1).0 else disk)
  }

  class FileStore {
    var disk: Disk
    /** Every state the disk has been in, the present one last. */
    ghost var history: seq<Disk>

    constructor ()
      ensures disk == map[] && history == [disk]
    {
      disk, history := map[], [map[]];
    }

    /** `mkdir`, `_atomic_write` or `unlink`: one directory takes its next state. */
    method Put(name: string, folder: Folder)
      modifies this
      ensures disk == old(disk)[name := folder] && history == old(history) + [disk]
    {
      disk := disk[name := folder];
      history := history + [disk];
    }

    /** `save_cert`: the directory is made, then the four files are replaced one by one. */
    method SaveCert(bundle: Bundle) returns (r: Result<Bundle, StoreError>)
      modifies this
      ensures (disk, r) == SaveStopped(old(disk), bundle, 4)
      ensures r == Err(InvalidKey) <==>
              bundle.domain in {"", ".", ".."} || '/' in bundle.domain || '\\' in bundle.domain
      ensures r == Err(InvalidKey) || r == Err(Collision) || r == Ok(bundle)
      ensures r.Ok? ==> disk == old(disk)[Component(bundle.domain) := FilesOf(bundle)]
      ensures r.Ok? ==> history == old(history) + StatesOfSave(old(disk), bundle)
      ensures r.Err? ==> forall d :: d in history ==> d in old(history) || d == disk
    {
      hide KeptAsName, LegalKey, Component, IsHexDigest;
      LegalKeys(bundle.domain);
      if !LegalKey(bundle.domain) {
        return Err(InvalidKey);
      }
      var name := Component(bundle.domain);
      var folder := FolderAt(disk, name);
      Put(name, folder);
      if folder.meta.Some? && folder.meta.value.domain != bundle.domain {
        assert disk == old(disk);
        return Err(Collision);
      }
      folder := folder.(cert := Some(bundle.certPem));
      Put(name, folder);
      folder := folder.(fullchain := Some(bundle.fullchainPem));
      Put(name, folder);
      folder := folder.(key := Some(bundle.keyPem));
      Put(name, folder);
      folder := folder.(meta := Some(Meta(bundle.domain, bundle.domains, bundle.issuedAt, bundle.expiresAt)));
      Put(name, folder);
      FiveStates(old(disk), bundle);
      assert disk == old(disk)[name := folder];
      return Ok(bundle);
    }

    method LoadCert(domain: string) returns (r: Result<Option<Bundle>, StoreError>)
      ensures r == Load(disk, domain)
      ensures !LegalKey(domain) <==> r == Err(InvalidKey)
      ensures r == Ok(None) <==> LegalKey(domain) && FolderAt(disk, Component(domain)).meta.None?
      ensures r == Err(Collision) <==>
              LegalKey(domain) && FolderAt(disk, Component(domain)).meta.Some?
              && FolderAt(disk, Component(domain)).meta.value.domain != domain
      ensures r.Ok? && r.value.Some? ==>
                && r.value.value.domain == domain && Component(domain) in disk
                && disk[Component(domain)] == FilesOf(r.value.value)
    {
      hide KeptAsName, IsHexDigest, Component;
      if !LegalKey(domain) {
        return Err(InvalidKey);
      }
      var name := Component(domain);
      if name !in disk || disk[name].meta.None? {
        return Ok(None);
      }
      var loaded := LoadFolder(disk[name], domain);
      if loaded.Err? {
        return Err(loaded.error);
      }
      return Ok(Some(loaded.value));
    }

    /** `delete_cert`, its files removed in this order. */
    method DeleteCert(domain: string, order: seq<File>) returns (r: Result<bool, StoreError>)
      requires Arrangement(order)
      modifies this
      ensures (disk, r) == Delete(old(disk), domain)
      ensures !LegalKey(domain) <==> r == Err(InvalidKey)
      ensures r == Ok(false) <==> LegalKey(domain) && FolderAt(old(disk), Component(domain)).meta.None?
      ensures r == Err(Collision) <==>
              LegalKey(domain) && FolderAt(old(disk), Component(domain)).meta.Some?
              && FolderAt(old(disk), Component(domain)).meta.value.domain != domain
      ensures r == Ok(true) ==> disk == old(disk) - {Component(domain)}
      ensures history == old(history) + if r == Ok(true) then StatesOfDelete(old(disk), domain, order) else []
    {
      hide KeptAsName, LegalKey, Component, WithoutFile;
      if !LegalKey(domain) {
        return Err(InvalidKey);
      }
      var name := Component(domain);
      if name !in disk || disk[name].meta.None? {
        return Ok(false);
      }
      if disk[name].meta.value.domain != domain {
        return Err(Collision);
      }
      ghost var was, states := disk, StatesOfDelete(disk, domain, order);
      var folder := disk[name];
      assert order[..4] == order;
      for k := 0 to 4
        invariant folder == WithoutFiles(was[name], order[..k])
        invariant disk == was[name := folder]
        invariant history == old(history) + states[..k]
      {
        assert order[..k + 1][..k] == order[..k];
        folder := WithoutFile(folder, order[k]);
        Overwritten(was, name, disk[name], folder);
        Put(name, folder);
        assert states[..k + 1] == states[..k] + [states[k]];
      }
      Overwritten(was, name, folder, folder);
      disk := disk - {name};
      history := history + [disk];
      assert states == states[..4] + [states[4]];
      return Ok(true);
    }

    /** `list_certs`: every whole bundle, in key order; it raises when some directory is not
        where its metadata says or lacks a file. */
    method ListCerts() returns (r: Result<seq<Bundle>, StoreError>)
      ensures r.Ok? <==> DiskInv(disk)
      ensures r.Ok? ==> Ascending(r.value)
      ensures r.Ok? ==> forall b :: b in r.value <==> Lookup(disk, b.domain) == Some(b)
    {
      hide LegalKey, KeptAsName, Before, Insert, Ascending, Component, DiskInv;
      var todo, certs: seq<Bundle> := disk.Keys, [];
      NothingListed(disk);
      while todo != {}
        invariant todo <= disk.Keys
        invariant forall name :: name in disk && name !in todo ==> Proper(name, disk[name])
        invariant Ascending(certs)
        invariant forall b :: b in certs <==> ListedFrom(disk, disk.Keys - todo, b)
        decreases todo
      {
        var name :| name in todo;
        var folder := disk[name];
        if folder.meta.Some? {
          var domain := folder.meta.value.domain;
          if !LegalKey(domain) || name != Component(domain) || !HasFiles(folder) {
            NotProper(disk, name);
            return Err(if !LegalKey(domain) then InvalidKey else if name != Component(domain) then Collision
              else FileMissing);
          }
          NotYetListed(disk, disk.Keys - todo, name, certs);
          InsertAscending(certs, BundleIn(folder));
          forall b ensures b in Insert(certs, BundleIn(folder)) <==> b == BundleIn(folder) || b in certs {
            InsertMembers(certs, BundleIn(folder), b);
          }
          certs := Insert(certs, BundleIn(folder));
        }
        OneMoreListed(disk, disk.Keys - todo, name);
        todo := todo - {name};
        assert disk.Keys - todo == disk.Keys - (todo + {name}) + {name};
      }
      AllListed(disk);
      return Ok(certs);
    }
  }

  /** The bundle is the whole content of one of these directories. */
  predicate ListedFrom(disk: Disk, names: set<string>, b: Bundle) {
    var name := Component(b.domain);
    name in names && name in disk && Proper(name, disk[name]) && disk[name].meta.Some? && BundleIn(disk[name]) == b
  }

  lemma NothingListed(disk: Disk)
    ensures Ascending([]) && forall b :: !ListedFrom(disk, {}, b)
  {
  }

  lemma NotProper(disk: Disk, name: string)
    requires name in disk && !Proper(name, disk[name])
    ensures !DiskInv(disk)
  {
  }

  lemma NotYetListed(disk: Disk, names: set<string>, name: string, certs: seq<Bundle>)
    requires name in disk && name !in names && disk[name].meta.Some? && Proper(name, disk[name])
    requires forall b :: b in certs <==> ListedFrom(disk, names, b)
    ensures forall i :: 0 <= i < |certs| ==> certs[i].domain != BundleIn(disk[name]).domain
  {
    hide Component, LegalKey;
    forall i | 0 <= i < |certs| ensures certs[i].domain != BundleIn(disk[name]).domain {
      assert certs[i] in certs;
    }
  }

  lemma OneMoreListed(disk: Disk, names: set<string>, name: string)
    requires name in disk && Proper(name, disk[name])
    ensures forall b :: ListedFrom(disk, names + {name}, b) <==>
              ListedFrom(disk, names, b) || (disk[name].meta.Some? && b == BundleIn(disk[name]))
  {
    hide Component, LegalKey;
  }

  lemma AllListed(disk: Disk)
    requires forall name :: name in disk ==> Proper(name, disk[name])
    ensures DiskInv(disk) && forall b :: ListedFrom(disk, disk.Keys, b) <==> Lookup(disk, b.domain) == Some(b)
  {
    hide Component, LegalKey;
  }

  /** The dictionary's keys in insertion order. */
  predicate Ordered(certs: map<string, Bundle>, order: seq<string>) {
    && (forall k :: k in certs ==> k in order && certs[k].domain == k)
    && (forall i :: 0 <= i < |order| ==> order[i] in certs)
    && (forall i, j :: 0 <= i < j < |order| ==> order[i] != order[j])
  }

  lemma OrderedWithout(certs: map<string, Bundle>, order: seq<string>, k: nat)
    requires Ordered(certs, order) && k < |order|
    ensures Ordered(certs - {order[k]}, order[..k] + order[k + 1..])
  {
    var rest, gone := order[..k] + order[k + 1..], order[k];
    assert forall i :: 0 <= i < |rest| ==> rest[i] == order[if i < k then i else i + 1];
    forall key | key in certs - {gone} ensures key in rest {
      RestMember(order, k, key);
    }
    DistinctWithout(order, k);
  }

  lemma RestMember(order: seq<string>, k: nat, key: string)
    requires k < |order| && key in order && key != order[k]
    ensures key in order[..k] + order[k + 1..]
  {
    var i :| 0 <= i < |order| && order[i] == key;
    assert (order[..k] + order[k + 1..])[if i < k then i else i - 1] == key;
  }

  lemma DistinctWithout(order: seq<string>, k: nat)
    requires k < |order| && forall i, j :: 0 <= i < j < |order| ==> order[i] != order[j]
    ensures var rest := order[..k] + order[k + 1..]; forall i, j :: 0 <= i < j < |rest| ==> rest[i] != rest[j]
    ensures var rest := order[..k] + order[k + 1..]; forall i :: 0 <= i < |rest| ==> rest[i] != order[k]
  {
    var rest := order[..k] + order[k + 1..];
    assert forall i :: 0 <= i < |rest| ==> rest[i] == order[if i < k then i else i + 1];
  }

  /** `MemoryStore`: a dictionary that remembers insertion order. */
  class MemoryStore {
    var certs: map<string, Bundle>
    var order: seq<string>

    ghost predicate Valid()
      reads this
    {
      Ordered(certs, order)
    }

    constructor ()
      ensures Valid() && certs == map[]
    {
      certs, order := map[], [];
    }

    method SaveCert(bundle: Bundle) returns (r: Bundle)
      requires Valid()
      modifies this
      ensures Valid() && certs == old(certs)[bundle.domain := bundle] && r == bundle
      ensures order == old(order) + if bundle.domain in old(certs) then [] else [bundle.domain]
    {
      if bundle.domain !in certs {
        order := order + [bundle.domain];
        assert order[|order| - 1] == bundle.domain;
      }
      certs := certs[bundle.domain := bundle];
      return bundle;
    }

    method LoadCert(domain: string) returns (r: Option<Bundle>)
      ensures r == if domain in certs then Some(certs[domain]) else None
    {
      return if domain in certs then Some(certs[domain]) else None;
    }

    /** `list_certs`: the bundles in insertion order. */
    method ListCerts() returns (r: seq<Bundle>)
      requires Valid()
      ensures |r| == |order| && forall i :: 0 <= i < |r| ==> r[i] == certs[order[i]]
      ensures forall b :: b in r <==> b.domain in certs && certs[b.domain] == b
      ensures forall i, j :: 0 <= i < j < |r| ==> r[i].domain != r[j].domain
    {
      r := [];
      for k := 0 to |order|
        invariant |r| == k && forall i :: 0 <= i < k ==> r[i] == certs[order[i]]
      {
        r := r + [certs[order[k]]];
      }
      forall k | k in certs ensures certs[k] in r {
        var i :| 0 <= i < |order| && order[i] == k;
        assert r[i] == certs[k];
      }
    }

    method DeleteCert(domain: string) returns (r: bool)
      requires Valid()
      modifies this
      ensures Valid() && certs == old(certs) - {domain} && r == (domain in old(certs))
      ensures !r ==> order == old(order)
      ensures r ==> exists k :: 0 <= k < |old(order)| && old(order)[k] == domain
                               && order == old(order)[..k] + old(order)[k + 1..]
    {
      if domain !in certs {
        assert certs - {domain} == certs;
        return false;
      }
      var k := 0;
      while order[k] != domain
        invariant 0 <= k < |order| && forall i :: 0 <= i < k ==> order[i] != domain
        invariant domain in order[k..]
        decreases |order| - k
      {
        assert order[k..] == [order[k]] + order[k + 1..];
        k := k + 1;
      }
      OrderedWithout(certs, order, k);
      order := order[..k] + order[k + 1..];
      certs := certs - {domain};
      return true;
    }
  }
}
