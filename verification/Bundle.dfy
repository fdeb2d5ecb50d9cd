// The codec bundle and what `_verify_reader` of media_codec_runtime.py accepts.

module Bundle {

  import opened Common
  import opened Archive

  const MAX_UNPACKED: nat := 512 * 1024 * 1024
  const MAX_MANIFEST: nat := 128 * 1024
  /** The fixed words of a bundle: its schema, its platform, the name of the manifest and
      the files every bundle must hold. */
  datatype Terms = Terms(schema: string, platform: string, manifest: string, required: set<string>)

  const TERMS := Terms(
    "aipg.media-codec-runtime.v1", "linux-x86_64", "manifest.json",
    {"bin/ffmpeg", "bin/ffprobe", "sbom.cdx.json", "source/build.py", "source/media-codecs.lock.json"})

  /** One entry of the manifest's file table. */
  datatype Item = Item(size: nat, sha256: string, mode: nat)

  datatype Manifest = Manifest(schema: string, commit: string, platform: string, source: string,
                               files: map<string, Item>)

  /** One entry of the tar file. */
  datatype Member = Member(name: string, isFile: bool, mode: nat, content: Bytes)

  datatype File = File(content: Bytes, mode: nat)

  /** The bundle's terms, SHA-256 and the JSON form of a manifest. The model does not look
      into the last two. */
  datatype Codec = Codec(terms: Terms, digest: Bytes -> string, print_: Manifest -> Bytes, parse: Bytes -> Option<Manifest>)

  predicate Hex64(s: string)
  {
    |s| == 64 && forall i :: 0 <= i < 64 ==> '0' <= s[i] <= '9' || 'a' <= s[i] <= 'f'
  }

  ghost predicate RealCodec(c: Codec)
  {
    && NameOk(c.terms.manifest)
    && (forall b :: Hex64(c.digest(b)))
    && (forall m :: c.parse(c.print_(m)) == Some(m))
  }

  function ContentOf(m: Member): Bytes
  {
    m.content
  }

  function TotalSize(ms: seq<Member>): nat
  {
    if ms == [] then 0 else TotalSize(ms[..|ms| - 1]) + |ms[|ms| - 1].content|
  }

  /** It is the length of all the contents put together. */
  lemma {:induction false} TotalSizeIs(ms: seq<Member>)
    ensures TotalSize(ms) == |Flat(ms, ContentOf)|
  {
    if ms != [] {
      TotalSizeIs(ms[..|ms| - 1]);
    }
  }

  lemma TotalStep(ms: seq<Member>, n: nat)
    requires n < |ms|
    ensures TotalSize(ms[..n + 1]) == TotalSize(ms[..n]) + |ms[n].content|
  {
    assert ms[..n + 1][..n] == ms[..n];
  }

  // ---- the verifier ------------------------------------------------------------------

  predicate Distinct(ms: seq<Member>)
  {
    forall i, j :: 0 <= i < j < |ms| ==> ms[i].name != ms[j].name
  }

  function Names(ms: seq<Member>): (names: set<string>)
    ensures forall i :: 0 <= i < |ms| ==> ms[i].name in names
    ensures forall n :: n in names ==> exists i :: 0 <= i < |ms| && ms[i].name == n
  {
    set i | 0 <= i < |ms| :: ms[i].name
  }

  /** The checks on the list of entries. */
  predicate Listing(ms: seq<Member>, c: Codec)
  {
    && Distinct(ms)
    && 6 <= |ms| <= 100
    && (forall i :: 0 <= i < |ms| ==> NameOk(ms[i].name) && ms[i].isFile)
    && TotalSize(ms) <= MAX_UNPACKED
    && c.terms.manifest in Names(ms)
  }

  predicate Identity(m: Manifest, ms: seq<Member>, commit: string, lock: string, c: Codec)
  {
    && m.schema == c.terms.schema && m.commit == commit && m.platform == c.terms.platform && m.source == lock
    && c.terms.manifest !in m.files
    && Names(ms) == m.files.Keys + {c.terms.manifest}
    && c.terms.required <= m.files.Keys
  }

  predicate Committed(x: Member, m: Manifest, c: Codec)
  {
    x.name in m.files &&
    var item := m.files[x.name];
    && item.size == |x.content|
    && item.mode == CheckedMode(x.name)
    && x.mode == item.mode
    && Hex64(item.sha256)
    && c.digest(x.content) == item.sha256
  }

  predicate ManifestIs(x: Member, c: Codec, m: Manifest)
  {
    x.name == c.terms.manifest && |x.content| <= MAX_MANIFEST && x.mode == PLAIN && c.parse(x.content) == Some(m)
  }

  predicate AllCommitted(ms: seq<Member>, m: Manifest, c: Codec)
  {
    forall i :: 0 <= i < |ms| && ms[i].name != c.terms.manifest ==> Committed(ms[i], m, c)
  }

  /** The archive is accepted and `m` is its manifest. */
  ghost predicate Accepts(ms: seq<Member>, commit: string, lock: string, c: Codec, m: Manifest)
  {
    && Listing(ms, c)
    && (exists i :: 0 <= i < |ms| && ManifestIs(ms[i], c, m))
    && Identity(m, ms, commit, lock, c)
    && AllCommitted(ms, m, c)
  }

  /** The index of the manifest, or the number of members. */
  method FindManifest(ms: seq<Member>, c: Codec) returns (k: nat)
    ensures k <= |ms| && (k < |ms| ==> ms[k].name == c.terms.manifest)
    ensures k == |ms| <==> c.terms.manifest !in Names(ms)
  {
    k := 0;
    while k < |ms| && ms[k].name != c.terms.manifest
      invariant k <= |ms| && forall i :: 0 <= i < k ==> ms[i].name != c.terms.manifest
    {
      k := k + 1;
    }
  }

  lemma DistinctStep(ms: seq<Member>, n: nat)
    requires n < |ms|
    ensures Distinct(ms[..n + 1]) <==> Distinct(ms[..n]) && forall i :: 0 <= i < n ==> ms[i].name != ms[n].name
  {
    assert forall i :: 0 <= i <= n ==> ms[..n + 1][i] == ms[i];
    assert forall i :: 0 <= i < n ==> ms[..n][i] == ms[i];
  }

  /** The reading loop and the checks on the entries. */
  method CheckListing(ms: seq<Member>, c: Codec) returns (ok: bool)
    ensures ok <==> Listing(ms, c)
  {
    var names, total, plain, distinct := {}, 0, true, true;
    for k := 0 to |ms|
      invariant k <= 100
      invariant forall n :: n in names <==> exists i :: 0 <= i < k && ms[i].name == n
      invariant total == TotalSize(ms[..k])
      invariant plain <==> forall i :: 0 <= i < k ==> NameOk(ms[i].name) && ms[i].isFile
      invariant distinct <==> Distinct(ms[..k])
    {
      if k >= 100 {
        return false;
      }
      DistinctStep(ms, k);
      TotalStep(ms, k);
      distinct := distinct && ms[k].name !in names;
      plain := plain && NameOk(ms[k].name) && ms[k].isFile;
      names := names + {ms[k].name};
      total := total + |ms[k].content|;
    }
    assert ms[..|ms|] == ms;
    return distinct && 6 <= |ms| && plain && total <= MAX_UNPACKED && c.terms.manifest in names;
  }

  method CheckCommitments(ms: seq<Member>, m: Manifest, c: Codec) returns (ok: bool)
    ensures ok <==> AllCommitted(ms, m, c)
  {
    for i := 0 to |ms|
      invariant forall j :: 0 <= j < i && ms[j].name != c.terms.manifest ==> Committed(ms[j], m, c)
    {
      if ms[i].name != c.terms.manifest && !Committed(ms[i], m, c) {
        return false;
      }
    }
    return true;
  }

  /** An accepted archive has one manifest. */
  lemma OneManifest(ms: seq<Member>, k: nat, commit: string, lock: string, c: Codec, m: Manifest)
    requires Distinct(ms) && k < |ms| && ms[k].name == c.terms.manifest
    requires Accepts(ms, commit, lock, c, m)
    ensures ManifestIs(ms[k], c, m)
  {
    var i :| 0 <= i < |ms| && ManifestIs(ms[i], c, m);
    assert i == k;
  }

  /** What acceptance tells about the list of entries. */
  lemma AcceptedEntries(ms: seq<Member>, commit: string, lock: string, c: Codec, m: Manifest)
    requires Accepts(ms, commit, lock, c, m)
    ensures 6 <= |ms| <= 100 && |Flat(ms, ContentOf)| <= 512 * 1024 * 1024
    ensures forall i, j :: 0 <= i < j < |ms| ==> ms[i].name != ms[j].name
    ensures forall i :: 0 <= i < |ms| ==> ms[i].isFile && NameOk(ms[i].name)
    ensures forall i :: 0 <= i < |ms| ==> (ms[i].name == c.terms.manifest <==> ms[i].name !in m.files)
    ensures forall n :: n in m.files ==> exists i :: 0 <= i < |ms| && ms[i].name == n
  {
    TotalSizeIs(ms);
    forall i | 0 <= i < |ms| ensures ms[i].name == c.terms.manifest <==> ms[i].name !in m.files {
      assert ms[i].name in Names(ms);
    }
    forall n | n in m.files ensures exists i :: 0 <= i < |ms| && ms[i].name == n {
      assert n in Names(ms);
    }
  }

  /** And about each of them: the manifest is the text that was parsed, and every other entry has the size, the
      digest and the mode that the manifest gives for it, the mode being the one for its place. */
  lemma AcceptedEntry(ms: seq<Member>, commit: string, lock: string, c: Codec, m: Manifest, i: nat)
    requires Accepts(ms, commit, lock, c, m) && i < |ms|
    ensures ms[i].name == c.terms.manifest ==>
              c.parse(ms[i].content) == Some(m) && |ms[i].content| <= 128 * 1024 && ms[i].mode == PLAIN
    ensures ms[i].name != c.terms.manifest ==>
              && ms[i].name in m.files
              && m.files[ms[i].name] == Item(|ms[i].content|, c.digest(ms[i].content), ms[i].mode)
              && ms[i].mode == (if "bin/" <= ms[i].name then EXEC else PLAIN)
              && var d := c.digest(ms[i].content);
                 |d| == 64 && forall j :: 0 <= j < 64 ==> d[j] in "0123456789abcdef"
  {
    if ms[i].name == c.terms.manifest {
      OneManifest(ms, i, commit, lock, c, m);
    } else {
      assert Committed(ms[i], m, c);
      HexDigits(c.digest(ms[i].content));
    }
  }

  lemma HexDigits(s: string)
    requires Hex64(s)
    ensures |s| == 64 && forall j :: 0 <= j < 64 ==> s[j] in "0123456789abcdef"
  {
    var digits := "0123456789abcdef";
    forall j | 0 <= j < 64 ensures s[j] in digits {
      var k := if s[j] <= '9' then s[j] as int - '0' as int else s[j] as int - 'a' as int + 10;
      assert digits[k] == s[j];
    }
  }

  /** An archive accepted for one commit and lock is refused for every other. */
  lemma AcceptedForOne(ms: seq<Member>, commit: string, lock: string, c: Codec, m: Manifest,
                       commit': string, lock': string, m': Manifest)
    requires Accepts(ms, commit, lock, c, m) && Accepts(ms, commit', lock', c, m')
    ensures commit' == commit == m.commit && lock' == lock == m.source && m' == m
  {
    var k :| 0 <= k < |ms| && ManifestIs(ms[k], c, m);
    OneManifest(ms, k, commit', lock', c, m');
  }

  /** `_verify_reader`. */
  method VerifyReader(ms: seq<Member>, commit: string, lock: string, c: Codec) returns (r: Option<Manifest>)
    ensures r.Some? ==> Accepts(ms, commit, lock, c, r.value)
    ensures r.None? ==> forall m :: !Accepts(ms, commit, lock, c, m)
    ensures r.Some? ==>
              && r.value.commit == commit && r.value.source == lock
              && r.value.schema == c.terms.schema && r.value.platform == c.terms.platform
              && (forall n :: n in c.terms.required ==> n in r.value.files)
    ensures r.Some? ==> forall i :: 0 <= i < |ms| && ms[i].name != c.terms.manifest ==>
              ms[i].name in r.value.files && c.digest(ms[i].content) == r.value.files[ms[i].name].sha256
  {
    var ok := CheckListing(ms, c);
    if !ok {
      return None;
    }
    var k := FindManifest(ms, c);
    forall m | Accepts(ms, commit, lock, c, m)
      ensures ManifestIs(ms[k], c, m)
    {
      OneManifest(ms, k, commit, lock, c, m);
    }
    if |ms[k].content| > MAX_MANIFEST || ms[k].mode != PLAIN {
      return None;
    }
    var parsed := c.parse(ms[k].content);
    if parsed.None? || !Identity(parsed.value, ms, commit, lock, c) {
      return None;
    }
    assert ManifestIs(ms[k], c, parsed.value);
    ok := CheckCommitments(ms, parsed.value, c);
    if !ok {
      return None;
    }
    forall i | 0 <= i < |ms| && ms[i].name != c.terms.manifest
      ensures ms[i].name in parsed.value.files && c.digest(ms[i].content) == parsed.value.files[ms[i].name].sha256
    {
      assert Committed(ms[i], parsed.value, c);
    }
    return parsed;
  }

  /** The name of the manifest is one the verifier accepts. */
  lemma ManifestNameOk()
    ensures NameOk(TERMS.manifest)
  {
    PlainNameOk(TERMS.manifest);
  }
}
