// Writing a bundle and laying it out again on disk.

module Packaging {

  import opened Common
  import opened Archive
  import opened Bundle

  // ---- the packer --------------------------------------------------------------------

  /** What `inventory` records of the package after `freeze_modes`. */
  function Table(package: map<string, Bytes>, c: Codec): map<string, Item>
  {
    map n | n in package :: Item(|package[n]|, c.digest(package[n]), FrozenMode(n))
  }

  function ManifestOf(package: map<string, Bytes>, commit: string, lock: string, c: Codec): Manifest
  {
    Manifest(c.terms.schema, commit, c.terms.platform, lock, Table(package, c))
  }

  /** The tar entry of one name; the manifest is written over whatever had its name. */
  function Entry(package: map<string, Bytes>, manifest: Bytes, n: string, c: Codec): Member
  {
    if n == c.terms.manifest then Member(n, true, PLAIN, manifest)
    else Member(n, true, FrozenMode(n), if n in package then package[n] else [])
  }

  /** `order` lists every file of the package and the manifest once. */
  ghost predicate Enumerates(order: seq<string>, package: map<string, Bytes>, c: Codec)
  {
    && (forall i, j :: 0 <= i < j < |order| ==> order[i] != order[j])
    && (forall n :: n in order <==> n in package || n == c.terms.manifest)
  }

  function Archived(order: seq<string>, package: map<string, Bytes>, manifest: Bytes, c: Codec): seq<Member>
  {
    seq(|order|, i requires 0 <= i < |order| => Entry(package, manifest, order[i], c))
  }

  /** `inventory`, over the names in sorted order. */
  method Inventory(package: map<string, Bytes>, order: seq<string>, c: Codec) returns (files: map<string, Item>)
    requires Enumerates(order, package, c)
    ensures files == Table(package, c)
  {
    files := map[];
    for i := 0 to |order|
      invariant forall n :: n in files <==> n in package && n in order[..i]
      invariant forall n :: n in files ==> files[n] == Item(|package[n]|, c.digest(package[n]), FrozenMode(n))
    {
      var n := order[i];
      assert order[..i + 1] == order[..i] + [n];
      if n in package {
        files := files[n := Item(|package[n]|, c.digest(package[n]), FrozenMode(n))];
      }
    }
    assert order[..|order|] == order;
  }

  /** The packing tail of `build`: the inventory, the manifest and the tar entries. */
  method Pack(package: map<string, Bytes>, order: seq<string>, commit: string, lock: string, c: Codec)
    returns (ms: seq<Member>, m: Manifest)
    requires Enumerates(order, package, c)
    ensures m == ManifestOf(package, commit, lock, c)
    ensures ms == Archived(order, package, c.print_(m), c)
  {
    var files := Inventory(package, order, c);
    m := Manifest(c.terms.schema, commit, c.terms.platform, lock, files);
    var text := c.print_(m);
    ms := [];
    for i := 0 to |order|
      invariant |ms| == i && forall k :: 0 <= k < i ==> ms[k] == Entry(package, text, order[k], c)
    {
      ms := ms + [Entry(package, text, order[i], c)];
    }
    assert ms == Archived(order, package, text, c);
  }

  /** What a package must satisfy for its own archive to be accepted. */
  ghost predicate Packable(package: map<string, Bytes>, order: seq<string>, m: Manifest, c: Codec)
  {
    && 6 <= |order| <= 100
    && (forall n :: n in package ==> NameOk(n))
    && c.terms.manifest !in package && "bin" !in package
    && c.terms.required <= package.Keys
    && TotalSize(Archived(order, package, c.print_(m), c)) <= MAX_UNPACKED
    && |c.print_(m)| <= MAX_MANIFEST
  }

  lemma ArchivedNames(order: seq<string>, package: map<string, Bytes>, text: Bytes, c: Codec, n: string)
    ensures n in Names(Archived(order, package, text, c)) <==> n in order
  {
    var ms := Archived(order, package, text, c);
    if n in order {
      var i :| 0 <= i < |order| && order[i] == n;
      assert ms[i].name == n;
    }
    if n in Names(ms) {
      var i :| 0 <= i < |ms| && ms[i].name == n;
      assert order[i] == n;
    }
  }

  lemma NamesOf(order: seq<string>, package: map<string, Bytes>, text: Bytes, c: Codec)
    requires Enumerates(order, package, c)
    ensures Names(Archived(order, package, text, c)) == package.Keys + {c.terms.manifest}
    ensures Distinct(Archived(order, package, text, c))
  {
    var names := Names(Archived(order, package, text, c));
    forall n
      ensures n in names <==> n in package.Keys + {c.terms.manifest}
    {
      ArchivedNames(order, package, text, c, n);
    }
  }

  lemma EntryAt(order: seq<string>, package: map<string, Bytes>, text: Bytes, n: string, c: Codec) returns (i: nat)
    requires Enumerates(order, package, c) && (n in package || n == c.terms.manifest)
    ensures i < |order| && order[i] == n && Archived(order, package, text, c)[i] == Entry(package, text, n, c)
  {
    assert n in order;
    i :| 0 <= i < |order| && order[i] == n;
  }

  lemma EntryCommitted(package: map<string, Bytes>, text: Bytes, m: Manifest, c: Codec, n: string)
    requires RealCodec(c) && m.files == Table(package, c) && n in package && n != c.terms.manifest
    ensures Committed(Entry(package, text, n, c), m, c) <==> n != "bin"
  {
    ModesAgree(n);
  }

  lemma PackableListed(package: map<string, Bytes>, order: seq<string>, m: Manifest, c: Codec)
    requires RealCodec(c) && Enumerates(order, package, c) && Packable(package, order, m, c)
    ensures Listing(Archived(order, package, c.print_(m), c), c)
  {
    var ms := Archived(order, package, c.print_(m), c);
    NamesOf(order, package, c.print_(m), c);
    forall i | 0 <= i < |ms|
      ensures NameOk(ms[i].name) && ms[i].isFile
    {
      assert order[i] in order;
    }
  }

  lemma PackableCommitted(package: map<string, Bytes>, order: seq<string>, m: Manifest, c: Codec)
    requires RealCodec(c) && Enumerates(order, package, c) && Packable(package, order, m, c) && m.files == Table(package, c)
    ensures AllCommitted(Archived(order, package, c.print_(m), c), m, c)
  {
    var text := c.print_(m);
    forall i | 0 <= i < |order| && order[i] != c.terms.manifest
      ensures Committed(Entry(package, text, order[i], c), m, c)
    {
      assert order[i] in order;
      EntryCommitted(package, text, m, c, order[i]);
    }
  }

  lemma PackableAccepted(package: map<string, Bytes>, order: seq<string>, commit: string, lock: string, c: Codec)
    requires RealCodec(c) && Enumerates(order, package, c)
    requires Packable(package, order, ManifestOf(package, commit, lock, c), c)
    ensures var m := ManifestOf(package, commit, lock, c);
            Accepts(Archived(order, package, c.print_(m), c), commit, lock, c, m)
  {
    var m := ManifestOf(package, commit, lock, c);
    var text := c.print_(m);
    var ms := Archived(order, package, text, c);
    PackableListed(package, order, m, c);
    PackableCommitted(package, order, m, c);
    NamesOf(order, package, text, c);
    var k := EntryAt(order, package, text, c.terms.manifest, c);
    assert ManifestIs(ms[k], c, m);
    assert m.files.Keys == package.Keys;
  }

  lemma AcceptedName(package: map<string, Bytes>, order: seq<string>, text: Bytes, m: Manifest, c: Codec, n: string)
    requires RealCodec(c) && Enumerates(order, package, c) && m.files == Table(package, c)
    requires n in package && c.terms.manifest !in package
    requires Listing(Archived(order, package, text, c), c) && AllCommitted(Archived(order, package, text, c), m, c)
    ensures NameOk(n) && n != "bin"
  {
    var ms := Archived(order, package, text, c);
    var i := EntryAt(order, package, text, n, c);
    assert NameOk(ms[i].name) && Committed(ms[i], m, c);
    EntryCommitted(package, text, m, c, n);
  }

  lemma AcceptedPackable(package: map<string, Bytes>, order: seq<string>, commit: string, lock: string, c: Codec)
    requires RealCodec(c) && Enumerates(order, package, c)
    requires var m := ManifestOf(package, commit, lock, c);
             Accepts(Archived(order, package, c.print_(m), c), commit, lock, c, m)
    ensures Packable(package, order, ManifestOf(package, commit, lock, c), c)
  {
    var m := ManifestOf(package, commit, lock, c);
    var text := c.print_(m);
    AcceptedText(package, order, text, m, c);
    assert m.files.Keys == package.Keys;
    forall n | n in package
      ensures NameOk(n) && n != "bin"
    {
      AcceptedName(package, order, text, m, c, n);
    }
  }

  lemma AcceptedText(package: map<string, Bytes>, order: seq<string>, text: Bytes, m: Manifest, c: Codec)
    requires exists k :: 0 <= k < |order| && ManifestIs(Archived(order, package, text, c)[k], c, m)
    ensures |text| <= MAX_MANIFEST
  {
    var k :| 0 <= k < |order| && ManifestIs(Archived(order, package, text, c)[k], c, m);
    assert Archived(order, package, text, c)[k] == Entry(package, text, order[k], c);
  }

  /** The packer's output is accepted exactly when the package respects the bounds. */
  lemma PackedIsAccepted(package: map<string, Bytes>, order: seq<string>, commit: string, lock: string, c: Codec)
    requires RealCodec(c) && Enumerates(order, package, c)
    ensures var m := ManifestOf(package, commit, lock, c);
            Accepts(Archived(order, package, c.print_(m), c), commit, lock, c, m) <==> Packable(package, order, m, c)
  {
    var m := ManifestOf(package, commit, lock, c);
    if Packable(package, order, m, c) {
      PackableAccepted(package, order, commit, lock, c);
    } else if Accepts(Archived(order, package, c.print_(m), c), commit, lock, c, m) {
      AcceptedPackable(package, order, commit, lock, c);
    }
  }

  // ---- the extractor -----------------------------------------------------------------

  /** What lies below the destination directory. */
  class Stage {
    var files: map<Path, File>
    var dirs: set<Path>

    constructor ()
      ensures files == map[] && dirs == {}
    {
      files, dirs := map[], {};
    }

    /** `path.parent.mkdir(parents=True, exist_ok=True)`. */
    method MakeParents(path: Path) returns (ok: bool)
      modifies this`dirs
      ensures ok <==> forall p :: p < path && p != [] ==> p !in files
      ensures ok ==> dirs == old(dirs) + Above(path)
      ensures old(dirs) <= dirs <= old(dirs) + Above(path)
    {
      var k := 1;
      while k < |path|
        invariant 1 <= k && dirs == old(dirs) + set j | 1 <= j < k && j < |path| :: path[..j]
        invariant forall j :: 1 <= j < k && j < |path| ==> path[..j] !in files
      {
        if path[..k] in files {
          assert path[..k] < path && path[..k] != [];
          return false;
        }
        dirs := dirs + {path[..k]};
        k := k + 1;
      }
      forall p | p < path && p != []
        ensures p !in files
      {
        assert p == path[..|p|];
      }
      ok := true;
    }

    /** `path.open("xb")`, the copy and `chmod`. */
    method CreateNew(path: Path, file: File) returns (ok: bool)
      modifies this`files
      ensures ok <==> path !in old(files) && path !in dirs
      ensures files == if ok then old(files)[path := file] else old(files)
    {
      ok := path !in files && path !in dirs;
      if ok {
        files := files[path := file];
      }
    }
  }

  /** The directories a file needs. */
  function Above(path: Path): set<Path>
  {
    set j | 1 <= j < |path| :: path[..j]
  }

  lemma AboveIs(path: Path, p: Path)
    ensures p in Above(path) <==> p < path && p != []
  {
    if p < path && p != [] {
      assert p == path[..|p|];
    }
  }

  function PathOf(m: Member): Path
  {
    Split(m.name)
  }

  /** The files of the first `n` members, with the bytes read for them at extraction. */
  function Laid(ms: seq<Member>, reread: nat -> Bytes, n: nat): map<Path, File>
    requires n <= |ms|
  {
    if n == 0 then map[] else Laid(ms, reread, n - 1)[PathOf(ms[n - 1]) := File(reread(n - 1), ms[n - 1].mode)]
  }

  lemma {:induction false} LaidKeys(ms: seq<Member>, reread: nat -> Bytes, n: nat)
    requires n <= |ms|
    ensures forall p :: p in Laid(ms, reread, n) <==> exists j :: 0 <= j < n && PathOf(ms[j]) == p
  {
    if n > 0 {
      LaidKeys(ms, reread, n - 1);
      var before, now := Laid(ms, reread, n - 1), Laid(ms, reread, n);
      forall p
        ensures p in now <==> exists j :: 0 <= j < n && PathOf(ms[j]) == p
      {
        if p in now && p != PathOf(ms[n - 1]) {
          var j :| 0 <= j < n - 1 && PathOf(ms[j]) == p;
        }
      }
    }
  }

  lemma {:induction false} LaidValues(ms: seq<Member>, reread: nat -> Bytes, n: nat, j: nat)
    requires j < n <= |ms| && Distinct(ms)
    ensures PathOf(ms[j]) in Laid(ms, reread, n)
    ensures Laid(ms, reread, n)[PathOf(ms[j])] == File(reread(j), ms[j].mode)
  {
    if j < n - 1 {
      LaidValues(ms, reread, n - 1, j);
      if PathOf(ms[j]) == PathOf(ms[n - 1]) {
        SplitInjective(ms[j].name, ms[n - 1].name);
      }
    }
  }

  /** No member's path is a directory of another one's. */
  ghost predicate NoNesting(ms: seq<Member>, n: nat)
    requires n <= |ms|
  {
    forall i, j :: 0 <= i < n && 0 <= j < n ==> !(PathOf(ms[i]) < PathOf(ms[j]))
  }

  ghost predicate Unchanged(ms: seq<Member>, reread: nat -> Bytes, c: Codec, n: nat)
    requires n <= |ms|
  {
    forall i :: 0 <= i < n && ms[i].name != c.terms.manifest ==> c.digest(reread(i)) == c.digest(ms[i].content)
  }

  function Dirs(ms: seq<Member>, n: nat): set<Path>
    requires n <= |ms|
  {
    if n == 0 then {} else Dirs(ms, n - 1) + Above(PathOf(ms[n - 1]))
  }

  lemma {:induction false} DirsAre(ms: seq<Member>, n: nat, p: Path)
    requires n <= |ms|
    ensures p in Dirs(ms, n) <==> p != [] && exists j :: 0 <= j < n && p < PathOf(ms[j])
  {
    if n > 0 {
      DirsAre(ms, n - 1, p);
      AboveIs(PathOf(ms[n - 1]), p);
    }
  }

  /** Member `n` does not nest with any member before it. */
  ghost predicate Fits(ms: seq<Member>, n: nat)
    requires n < |ms|
  {
    forall j :: 0 <= j < n ==> !(PathOf(ms[j]) < PathOf(ms[n])) && !(PathOf(ms[n]) < PathOf(ms[j]))
  }

  /** One more member can be laid out exactly when it fits. */
  lemma FitsNext(ms: seq<Member>, reread: nat -> Bytes, n: nat)
    requires n < |ms| && Distinct(ms)
    ensures var (path, laid) := (PathOf(ms[n]), Laid(ms, reread, n));
            (forall p :: p < path && p != [] ==> p !in laid) && path !in laid && path !in Dirs(ms, n) <==> Fits(ms, n)
  {
    var path, laid := PathOf(ms[n]), Laid(ms, reread, n);
    LaidKeys(ms, reread, n);
    DirsAre(ms, n, path);
    if path in laid {
      var j :| 0 <= j < n && PathOf(ms[j]) == path;
      SplitInjective(ms[j].name, ms[n].name);
    }
    if !Fits(ms, n) {
      var j :| 0 <= j < n && (PathOf(ms[j]) < path || path < PathOf(ms[j]));
      assert PathOf(ms[j]) in laid && PathOf(ms[j]) != [];
    }
  }

  lemma NestingStep(ms: seq<Member>, n: nat)
    requires n < |ms|
    ensures NoNesting(ms, n + 1) <==> NoNesting(ms, n) && Fits(ms, n)
  {
  }

  /** One more member is laid out, and its digest taken again unless it is the manifest. */
  method LayNext(stage: Stage, ms: seq<Member>, m: Manifest, reread: nat -> Bytes, c: Codec, i: nat) returns (ok: bool)
    requires i < |ms| && Distinct(ms) && (ms[i].name != c.terms.manifest ==> Committed(ms[i], m, c))
    requires stage.files == Laid(ms, reread, i) && stage.dirs == Dirs(ms, i)
    modifies stage
    ensures ok <==> Fits(ms, i) && (ms[i].name != c.terms.manifest ==> c.digest(reread(i)) == c.digest(ms[i].content))
    ensures ok ==> stage.files == Laid(ms, reread, i + 1) && stage.dirs == Dirs(ms, i + 1)
  {
    FitsNext(ms, reread, i);
    var path := PathOf(ms[i]);
    ok := stage.MakeParents(path);
    if !ok {
      return;
    }
    ok := stage.CreateNew(path, File(reread(i), ms[i].mode));
    if !ok {
      return;
    }
    if ms[i].name != c.terms.manifest && c.digest(reread(i)) != m.files[ms[i].name].sha256 {
      return false;
    }
  }

  /** Laying the accepted members out, one after the other. `reread(i)` is what the tar
      file yields for member `i` this second time. */
  method LayOut(stage: Stage, ms: seq<Member>, m: Manifest, reread: nat -> Bytes, c: Codec) returns (ok: bool)
    requires Distinct(ms) && AllCommitted(ms, m, c)
    requires stage.files == map[] && stage.dirs == {}
    modifies stage
    ensures ok <==> NoNesting(ms, |ms|) && Unchanged(ms, reread, c, |ms|)
    ensures ok ==> stage.files == Laid(ms, reread, |ms|)
  {
    for i := 0 to |ms|
      invariant stage.files == Laid(ms, reread, i) && stage.dirs == Dirs(ms, i)
      invariant NoNesting(ms, i) && Unchanged(ms, reread, c, i)
    {
      NestingStep(ms, i);
      NestingMonotone(ms, i + 1, |ms|);
      ok := LayNext(stage, ms, m, reread, c, i);
      if !ok {
        return;
      }
    }
    ok := true;
  }

  lemma NestingMonotone(ms: seq<Member>, n: nat, k: nat)
    requires n <= k <= |ms|
    ensures NoNesting(ms, k) ==> NoNesting(ms, n)
  {
  }

  /** `extract_verified` into a new directory: it succeeds exactly for an accepted archive
      without nested names whose files read back with the digests of the manifest. */
  method ExtractVerified(stage: Stage, ms: seq<Member>, commit: string, lock: string, reread: nat -> Bytes, c: Codec)
    returns (r: Option<Manifest>)
    requires stage.files == map[] && stage.dirs == {}
    modifies stage
    ensures r.Some? ==> Accepts(ms, commit, lock, c, r.value) && stage.files == Laid(ms, reread, |ms|)
    ensures r.Some? <==> (exists m :: Accepts(ms, commit, lock, c, m)) && NoNesting(ms, |ms|) && Unchanged(ms, reread, c, |ms|)
    ensures (forall m :: !Accepts(ms, commit, lock, c, m)) ==> stage.files == map[]
  {
    var manifest := VerifyReader(ms, commit, lock, c);
    if manifest.None? {
      return None;
    }
    var ok := LayOut(stage, ms, manifest.value, reread, c);
    r := if ok then manifest else None;
  }

  // ---- the round trip -----------------------------------------------------------------

  /** Under a collision-free digest the bytes on disk are those that were verified, for
      every file but the manifest. */
  lemma OnDiskAsVerified(ms: seq<Member>, reread: nat -> Bytes, c: Codec, j: nat)
    requires Distinct(ms) && Unchanged(ms, reread, c, |ms|) && j < |ms| && ms[j].name != c.terms.manifest
    requires forall x, y :: c.digest(x) == c.digest(y) ==> x == y
    ensures PathOf(ms[j]) in Laid(ms, reread, |ms|)
    ensures Laid(ms, reread, |ms|)[PathOf(ms[j])] == File(ms[j].content, ms[j].mode)
  {
    LaidValues(ms, reread, |ms|, j);
  }

  /** Two accepted archives with one manifest hold the same files, byte for byte. */
  lemma ManifestFixesFiles(x: seq<Member>, y: seq<Member>, commit: string, lock: string, c: Codec, m: Manifest, i: nat)
    requires Accepts(x, commit, lock, c, m) && Accepts(y, commit, lock, c, m)
    requires forall a, b :: c.digest(a) == c.digest(b) ==> a == b
    requires i < |x| && x[i].name != c.terms.manifest
    ensures exists j :: 0 <= j < |y| && y[j] == x[i]
  {
    assert Committed(x[i], m, c);
    assert x[i].name in Names(y);
    var j :| 0 <= j < |y| && y[j].name == x[i].name;
    assert Committed(y[j], m, c);
  }

  /** What extraction leaves of an undisturbed archive of the packer. */
  lemma LaidFile(package: map<string, Bytes>, order: seq<string>, text: Bytes, reread: nat -> Bytes, c: Codec, n: string)
    requires Enumerates(order, package, c) && n in package && n != c.terms.manifest
    requires forall i :: 0 <= i < |order| ==> reread(i) == Archived(order, package, text, c)[i].content
    ensures var laid := Laid(Archived(order, package, text, c), reread, |order|);
            Split(n) in laid && laid[Split(n)] == File(package[n], FrozenMode(n))
  {
    var ms := Archived(order, package, text, c);
    NamesOf(order, package, text, c);
    var i := EntryAt(order, package, text, n, c);
    LaidValues(ms, reread, |ms|, i);
  }

  lemma LaidOnly(package: map<string, Bytes>, order: seq<string>, text: Bytes, reread: nat -> Bytes, c: Codec, p: Path)
    requires Enumerates(order, package, c)
    requires p in Laid(Archived(order, package, text, c), reread, |order|)
    ensures exists n :: (n in package || n == c.terms.manifest) && p == Split(n)
  {
    var ms := Archived(order, package, text, c);
    LaidKeys(ms, reread, |ms|);
    var j :| 0 <= j < |ms| && PathOf(ms[j]) == p;
    assert order[j] in order;
  }

  /** The bytes of each member, read again undisturbed. */
  function Contents(ms: seq<Member>): nat -> Bytes
  {
    (i: nat) => if i < |ms| then ms[i].content else []
  }

  method ExtractUndisturbed(ms: seq<Member>, commit: string, lock: string, c: Codec, m: Manifest)
    returns (stage: Stage, r: Option<Manifest>)
    requires Accepts(ms, commit, lock, c, m) && NoNesting(ms, |ms|)
    ensures r == Some(m) && stage.files == Laid(ms, Contents(ms), |ms|)
  {
    stage := new Stage();
    r := ExtractVerified(stage, ms, commit, lock, Contents(ms), c);
    SameManifest(ms, commit, lock, c, m, r.value);
  }

  lemma PlainOrder(package: map<string, Bytes>, order: seq<string>, text: Bytes, c: Codec)
    requires NoneBelow(order)
    ensures NoNesting(Archived(order, package, text, c), |order|)
  {
    var ms := Archived(order, package, text, c);
    assert forall i :: 0 <= i < |ms| ==> ms[i].name == order[i] && order[i] in order;
  }

  /** `files` holds the package with its frozen modes, and besides it at most a manifest. */
  ghost predicate Holds(files: map<Path, File>, package: map<string, Bytes>, c: Codec)
  {
    && (forall n :: n in package ==> Split(n) in files && files[Split(n)] == File(package[n], FrozenMode(n)))
    && (forall p :: p in files ==> exists n :: (n in package || n == c.terms.manifest) && p == Split(n))
  }

  lemma LaidPackage(package: map<string, Bytes>, order: seq<string>, text: Bytes, c: Codec)
    requires Enumerates(order, package, c) && c.terms.manifest !in package
    ensures var ms := Archived(order, package, text, c);
            Holds(Laid(ms, Contents(ms), |ms|), package, c)
  {
    var ms := Archived(order, package, text, c);
    forall n | n in package
      ensures Split(n) in Laid(ms, Contents(ms), |ms|)
      ensures Laid(ms, Contents(ms), |ms|)[Split(n)] == File(package[n], FrozenMode(n))
    {
      LaidFile(package, order, text, Contents(ms), c, n);
    }
    forall p | p in Laid(ms, Contents(ms), |ms|)
      ensures exists n :: (n in package || n == c.terms.manifest) && p == Split(n)
    {
      LaidOnly(package, order, text, Contents(ms), c, p);
    }
  }

  /** No file name of the package is a directory of another. */
  ghost predicate NoneBelow(order: seq<string>)
  {
    forall a, b :: a in order && b in order ==> !(Split(a) < Split(b))
  }

  /** Packing a package within the bounds and extracting the archive gives the package
      back, with its frozen modes, next to its manifest. */
  method PackAndExtract(package: map<string, Bytes>, order: seq<string>, commit: string, lock: string, c: Codec)
    returns (stage: Stage, r: Option<Manifest>)
    requires RealCodec(c) && Enumerates(order, package, c) && NoneBelow(order)
    requires Packable(package, order, ManifestOf(package, commit, lock, c), c)
    ensures r == Some(ManifestOf(package, commit, lock, c))
    ensures Holds(stage.files, package, c)
  {
    var ms, m := Pack(package, order, commit, lock, c);
    PackableAccepted(package, order, commit, lock, c);
    PlainOrder(package, order, c.print_(m), c);
    stage, r := ExtractUndisturbed(ms, commit, lock, c, m);
    LaidPackage(package, order, c.print_(m), c);
  }

  lemma SameManifest(ms: seq<Member>, commit: string, lock: string, c: Codec, m: Manifest, n: Manifest)
    requires Accepts(ms, commit, lock, c, m) && Accepts(ms, commit, lock, c, n)
    ensures m == n
  {
    var i :| 0 <= i < |ms| && ManifestIs(ms[i], c, m);
    var j :| 0 <= j < |ms| && ManifestIs(ms[j], c, n);
    assert i == j;
  }

  // ---- names that nest ---------------------------------------------------------------

  /** The names of a set, in some order. */
  method Listed(names: set<string>) returns (order: seq<string>)
    ensures forall i, j :: 0 <= i < j < |order| ==> order[i] != order[j]
    ensures forall n :: n in order <==> n in names
    ensures |order| == |names|
  {
    order := [];
    var left := names;
    while left != {}
      invariant left <= names && |order| + |left| == |names|
      invariant forall i, j :: 0 <= i < j < |order| ==> order[i] != order[j]
      invariant forall n :: n in order <==> n in names && n !in left
      decreases |left|
    {
      var n :| n in left;
      order, left := order + [n], left - {n};
    }
  }

  /** The files a bundle must hold, all empty, and one more below `a`. */
  function NestedPackage(c: Codec, a: string): map<string, Bytes>
  {
    map n | n in c.terms.required + {a + ['/'] + "x"} :: []
  }

  lemma {:induction false} EmptyFiles(order: seq<string>, package: map<string, Bytes>, text: Bytes, c: Codec)
    requires forall n :: n in package ==> package[n] == []
    requires forall i, j :: 0 <= i < j < |order| ==> order[i] != order[j]
    ensures TotalSize(Archived(order, package, text, c)) <= if c.terms.manifest in order then |text| else 0
  {
    var ms := Archived(order, package, text, c);
    if order != [] {
      var front, n := order[..|order| - 1], order[|order| - 1];
      assert order == front + [n];
      assert ms[..|ms| - 1] == Archived(front, package, text, c);
      EmptyFiles(front, package, text, c);
      assert c.terms.manifest in front ==> n != c.terms.manifest;
    }
  }

  lemma PairOk(a: string, b: string)
    requires 0 < |a| <= 60 && 0 < |b| <= 60 && '\\' !in a + b && '/' !in a + b
    requires a != "." && a != ".." && b != "." && b != ".."
    ensures NameOk(a + ['/'] + b)
  {
    PlainNameOk(a);
    PlainNameOk(b);
    NestedNamesAccepted(a, b);
  }

  lemma BinariesOk()
    ensures NameOk("bin/ffmpeg") && NameOk("bin/ffprobe")
  {
    PairOk("bin", "ffmpeg");
    PairOk("bin", "ffprobe");
    assert "bin" + ['/'] + "ffmpeg" == "bin/ffmpeg";
    assert "bin" + ['/'] + "ffprobe" == "bin/ffprobe";
  }

  lemma ScriptOk()
    ensures NameOk("source/build.py")
  {
    PairOk("source", "build.py");
    assert "source" + ['/'] + "build.py" == "source/build.py";
  }

  lemma LockOk()
    ensures NameOk("source/media-codecs.lock.json")
  {
    PairOk("source", "media-codecs.lock.json");
    assert "source" + ['/'] + "media-codecs.lock.json" == "source/media-codecs.lock.json";
  }

  lemma SbomOk()
    ensures NameOk("sbom.cdx.json")
  {
    PlainNameOk("sbom.cdx.json");
  }

  /** Terms under which a bundle can be packed at all. */
  ghost predicate Sensible(t: Terms)
  {
    && |t.required| == 5 && NameOk(t.manifest) && '/' !in t.manifest
    && forall n :: n in t.required ==> NameOk(n) && n != t.manifest && n != "bin"
  }

  /** The terms of the codec bundles are such. */
  lemma TermsOk()
    ensures Sensible(TERMS) && "sbom.cdx.json" in TERMS.required
  {
    BinariesOk();
    ScriptOk();
    LockOk();
    SbomOk();
    ManifestNameOk();
    var a, b, c, d, e := "bin/ffmpeg", "bin/ffprobe", "sbom.cdx.json", "source/build.py", "source/media-codecs.lock.json";
    assert |a| == 10 && |b| == 11 && |c| == 13 && |d| == 15 && |e| == 29;
    assert TERMS.required == {a, b, c, d, e};
    assert c[0] == 's' && TERMS.manifest[0] == 'm';
  }

  lemma NestedName(a: string, manifest: string)
    requires NameOk(a) && |a| <= 238 && '/' !in manifest
    ensures var n := a + ['/'] + "x"; NameOk(n) && Split(a) < Split(n) && n != "bin" && n != manifest
  {
    var x := "x";
    PlainNameOk(x);
    NestedNamesAccepted(a, x);
    var n := a + ['/'] + x;
    assert n[|a|] == '/' && '/' in n;
  }

  lemma Bigger(x: set<string>, y: set<string>)
    requires x <= y
    ensures |x| <= |y|
  {
    assert y == x + (y - x);
  }

  lemma NestedCount(t: Terms, n: string)
    requires Sensible(t)
    ensures 6 <= |t.required + {n} + {t.manifest}| <= 7
  {
    assert |t.required + {t.manifest}| == 6;
    Bigger(t.required + {t.manifest}, t.required + {n} + {t.manifest});
  }

  lemma NestedFiles(c: Codec, a: string)
    requires Sensible(c.terms) && a in c.terms.required && |a| <= 238
    ensures var package := NestedPackage(c, a);
            && c.terms.required <= package.Keys && c.terms.manifest !in package && "bin" !in package
            && (forall n :: n in package ==> NameOk(n))
            && 6 <= |package.Keys + {c.terms.manifest}| <= 7
  {
    var n := a + ['/'] + "x";
    NestedName(a, c.terms.manifest);
    assert NestedPackage(c, a).Keys == c.terms.required + {n};
    NestedCount(c.terms, n);
  }

  lemma NestedPackable(c: Codec, a: string, order: seq<string>, m: Manifest)
    requires RealCodec(c) && Sensible(c.terms) && a in c.terms.required && |a| <= 238
    requires Enumerates(order, NestedPackage(c, a), c) && |order| == |NestedPackage(c, a).Keys + {c.terms.manifest}|
    requires |c.print_(m)| <= MAX_MANIFEST
    ensures Packable(NestedPackage(c, a), order, m, c)
  {
    var package := NestedPackage(c, a);
    NestedFiles(c, a);
    EmptyFiles(order, package, c.print_(m), c);
  }

  lemma NestedOnDisk(c: Codec, a: string, order: seq<string>, text: Bytes)
    requires Sensible(c.terms) && a in c.terms.required && |a| <= 238 && Enumerates(order, NestedPackage(c, a), c)
    ensures !NoNesting(Archived(order, NestedPackage(c, a), text, c), |order|)
  {
    var package, n := NestedPackage(c, a), a + ['/'] + "x";
    NestedName(a, c.terms.manifest);
    var i := EntryAt(order, package, text, a, c);
    var j := EntryAt(order, package, text, n, c);
    var ms := Archived(order, package, text, c);
    assert PathOf(ms[i]) < PathOf(ms[j]);
  }

  /** An archive that the verifier accepts and the extractor cannot lay out: all the files a bundle needs, and
      one more below one of them. */
  method NestedRefused(a: string, commit: string, lock: string, c: Codec)
    returns (verified: Option<Manifest>, extracted: Option<Manifest>)
    requires RealCodec(c) && Sensible(c.terms) && a in c.terms.required && |a| <= 238
    requires |c.print_(ManifestOf(NestedPackage(c, a), commit, lock, c))| <= MAX_MANIFEST
    ensures verified.Some? && extracted.None?
  {
    var package := NestedPackage(c, a);
    var order := Listed(package.Keys + {c.terms.manifest});
    var ms, m := Pack(package, order, commit, lock, c);
    NestedPackable(c, a, order, m);
    PackableAccepted(package, order, commit, lock, c);
    NestedOnDisk(c, a, order, c.print_(m));
    verified := VerifyReader(ms, commit, lock, c);
    var stage := new Stage();
    extracted := ExtractVerified(stage, ms, commit, lock, Contents(ms), c);
  }
}
