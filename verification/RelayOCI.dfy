/**
  The strict parser of the relay's OCI archive (Image Layout and Image Manifest sections of the
  OCI Image Format Specification).
  Source: cmd/owntransitctl/relay_oci_linux.go, parseRelayOCIArchive.
*/
module RelayOCI {
  import opened Common

  const MAX_ARCHIVE: int := 8 * 1024 * 1024 * 1024
  const MAX_JSON: int := 1024 * 1024
  const MANIFEST_TYPE := "application/vnd.oci.image.manifest.v1+json"
  const CONFIG_TYPE := "application/vnd.oci.image.config.v1+json"
  const LAYER_TYPE := "application/vnd.oci.image.layer.v1.tar"

  /** The paths that the parser tells apart: "blobs/", "blobs/sha256/", "index.json", "oci-layout",
      whatever follows the prefix "blobs/sha256/", and everything else. */
  datatype Path = BlobsDirectory | DigestDirectory | IndexFile | LayoutFile | BlobFile(digest: string) | Unexpected(name: string)

  /** One tar entry. `exact` says that its header is plain USTAR without links, owners or
      extensions, and that it parsed at all; `data` is what its body turned out to hold. */
  datatype Entry = Entry(path: Path, exact: bool, kind: Kind, mode: int, size: int, data: Bytes)

  datatype Kind = Directory | Regular | OtherKind

  datatype Descriptor = Descriptor(mediaType: string, digest: string, size: int)

  datatype IndexEntry = IndexEntry(descriptor: Descriptor, architecture: string, os: string, reference: string)

  datatype Index = Index(schema: int, manifests: seq<IndexEntry>)

  datatype Manifest = Manifest(schema: int, config: Descriptor, layers: seq<Descriptor>)

  /** `fixed` stands for the commands, labels and user that must have one exact value. */
  datatype ImageConfig = ImageConfig(architecture: string, os: string, release: string, diffIds: seq<string>, fixed: bool)

  /** What this archive is checked against: the canonical JSON decoders, SHA-256 in hexadecimal,
      and the image that is expected. */
  datatype Context = Context(
    index: Bytes -> Option<Index>, manifest: Bytes -> Option<Manifest>, config: Bytes -> Option<ImageConfig>,
    sha: Bytes -> string, release: string, architecture: string)

  /** `contents` is kept only where it may be JSON. */
  datatype Blob = Blob(size: int, contents: Bytes)

  const LAYOUT_TEXT := "{\"imageLayoutVersion\":\"1.0.0\"}\n"

  function Layout(): (b: Bytes)
    ensures |b| == 31
  {
    seq(|LAYOUT_TEXT|, k requires 0 <= k < |LAYOUT_TEXT| => if LAYOUT_TEXT[k] < 256 as char then LAYOUT_TEXT[k] as nat else 0)
  }

  predicate IsHex(t: string) {
    |t| == 64 && forall k | 0 <= k < 64 :: '0' <= t[k] <= '9' || 'a' <= t[k] <= 'f'
  }

  // ---------------------------------------------------------------- what one entry may be

  predicate DirectoryOk(e: Entry) {
    e.kind.Directory? && e.size == 0 && e.mode == 0x1ED
  }

  predicate MetadataOk(e: Entry) {
    e.kind.Regular? && e.mode == 0x1A4 && 0 < e.size <= MAX_JSON && |e.data| == e.size
  }

  predicate BlobOk(c: Context, e: Entry) {
    && e.kind.Regular? && e.mode == 0x1A4 && 0 < e.size <= MAX_ARCHIVE && e.path.BlobFile? && IsHex(e.path.digest)
    && |e.data| == e.size && c.sha(e.data) == e.path.digest
  }

  predicate EntryOk(c: Context, e: Entry) {
    && e.exact
    && match e.path
       case BlobsDirectory => DirectoryOk(e)
       case DigestDirectory => DirectoryOk(e)
       case IndexFile => MetadataOk(e)
       case LayoutFile => MetadataOk(e)
       case _ => BlobOk(c, e)
  }

  function Retained(e: Entry): Blob {
    Blob(e.size, if e.size <= MAX_JSON then e.data else [])
  }

  // ------------------------------------------------------------- the graph of the blobs

  predicate Digest64(t: string) {
    |t| >= 7 && t[..7] == "sha256:" && IsHex(t[7..])
  }

  /** `referencedRelayOCIBlob`. */
  function Referenced(d: Descriptor, blobs: map<string, Blob>): Option<string> {
    if Digest64(d.digest) && d.size > 0 && d.digest[7..] in blobs && blobs[d.digest[7..]].size == d.size
    then Some(d.digest[7..]) else None
  }

  function Decode<T>(decode: Bytes -> Option<T>, b: Bytes): Option<T> {
    if |b| == 0 || |b| > MAX_JSON then None else decode(b)
  }

  predicate IndexSelects(c: Context, index: Index) {
    && index.schema == 2 && |index.manifests| == 1
    && var e := index.manifests[0];
    && e.descriptor.mediaType == MANIFEST_TYPE && e.architecture == c.architecture && e.os == "linux"
    && e.reference == "owntransit-relay:" + c.release
  }

  predicate ManifestFits(m: Manifest) {
    m.schema == 2 && |m.layers| == 1 && m.config.mediaType == CONFIG_TYPE && m.layers[0].mediaType == LAYER_TYPE
  }

  predicate ConfigFits(c: Context, image: ImageConfig, layer: string) {
    && (c.architecture == "amd64" || c.architecture == "arm64")
    && image.architecture == c.architecture && image.os == "linux" && image.release == c.release && image.fixed
    && image.diffIds == ["sha256:" + layer]
  }

  /** The second half of the parser: the image that index and blobs select. */
  function Select(c: Context, indexBytes: Bytes, blobs: map<string, Blob>): Option<string> {
    var index := Decode(c.index, indexBytes);
    if index.None? || !IndexSelects(c, index.value) then None
    else
      var md := Referenced(index.value.manifests[0].descriptor, blobs);
      if md.None? then None
      else
        var m := Decode(c.manifest, blobs[md.value].contents);
        if m.None? || !ManifestFits(m.value) then None
        else
          var cd, ld := Referenced(m.value.config, blobs), Referenced(m.value.layers[0], blobs);
          if cd.None? || ld.None? then None
          else if md == cd || md == ld || cd == ld || |blobs[cd.value].contents| == 0 then None
          else
            var image := Decode(c.config, blobs[cd.value].contents);
            if image.None? || !ConfigFits(c, image.value, ld.value) then None else Some("sha256:" + cd.value)
  }

  // ------------------------------------------------------------------ the whole archive

  function Paths(es: seq<Entry>): set<Path> {
    set e | e in es :: e.path
  }

  predicate Distinct(es: seq<Entry>) {
    forall i, j | 0 <= i < j < |es| :: es[i].path != es[j].path
  }

  predicate Good(c: Context, es: seq<Entry>) {
    Distinct(es) && forall e <- es :: EntryOk(c, e)
  }

  predicate Complete(es: seq<Entry>) {
    && |es| == 7 && |BlobsOf(es)| == 3
    && BlobsDirectory in Paths(es) && DigestDirectory in Paths(es) && IndexFile in Paths(es) && LayoutFile in Paths(es)
    && DataOf(es, LayoutFile) == Layout()
  }

  /** Seven acceptable entries under different paths: the four fixed ones and three blobs. */
  predicate Exact(c: Context, es: seq<Entry>) {
    Good(c, es) && Complete(es)
  }

  function BlobsOf(es: seq<Entry>): map<string, Blob> {
    if es == [] then map[]
    else
      var last := es[|es| - 1];
      if last.path.BlobFile? then BlobsOf(es[..|es| - 1])[last.path.digest := Retained(last)] else BlobsOf(es[..|es| - 1])
  }

  function DataOf(es: seq<Entry>, path: Path): Bytes {
    if es == [] then []
    else if es[|es| - 1].path == path then es[|es| - 1].data
    else DataOf(es[..|es| - 1], path)
  }

  /** What the archive means, if anything: the identity of the image that it carries. */
  function Meaning(c: Context, es: seq<Entry>): Option<string> {
    if Exact(c, es) then Select(c, DataOf(es, IndexFile), BlobsOf(es)) else None
  }

  // ------------------------------------------------------------------ counting entries

  lemma {:induction false} BlobMember(es: seq<Entry>, d: string)
    ensures d in BlobsOf(es) ==> exists e <- es :: e.path == BlobFile(d) && BlobsOf(es)[d] == Retained(e)
    ensures d !in BlobsOf(es) ==> BlobFile(d) !in Paths(es)
  {
    if es != [] {
      var init, last := es[..|es| - 1], es[|es| - 1];
      BlobMember(init, d);
      assert es == init + [last];
      assert Paths(es) == Paths(init) + {last.path};
    }
  }

  lemma NewPath(es: seq<Entry>)
    requires es != [] && Distinct(es)
    ensures es[|es| - 1].path !in Paths(es[..|es| - 1])
  {
  }

  lemma {:induction false} BlobsGrow(es: seq<Entry>, i: nat)
    requires i <= |es|
    ensures BlobsOf(es[..i]).Keys <= BlobsOf(es).Keys
  {
    if i < |es| {
      BlobsGrow(es[..|es| - 1], i);
      assert es[..|es| - 1][..i] == es[..i];
    } else {
      assert es[..i] == es;
    }
  }

  /** A fourth blob cannot be part of an acceptable archive. */
  lemma NoFourthBlob(c: Context, es: seq<Entry>, i: nat)
    requires Exact(c, es) && i < |es| && es[i].path.BlobFile?
    ensures |BlobsOf(es[..i])| < 3
  {
    BlobsGrow(es, i + 1);
    assert es[..i + 1][..i] == es[..i];
    NewPath(es[..i + 1]);
    BlobMember(es[..i], es[i].path.digest);
    SmallerKeys(BlobsOf(es[..i + 1]), BlobsOf(es));
  }

  lemma SmallerKeys(m: map<string, Blob>, n: map<string, Blob>)
    requires m.Keys <= n.Keys
    ensures |m| <= |n|
  {
    assert n.Keys == m.Keys + (n.Keys - m.Keys);
  }

  lemma {:induction false} DataOfMember(es: seq<Entry>, e: Entry)
    requires Distinct(es) && e in es
    ensures DataOf(es, e.path) == e.data
  {
    var init, last := es[..|es| - 1], es[|es| - 1];
    assert es == init + [last];
    if e != last {
      NewPath(es);
      DataOfMember(init, e);
    }
  }

  lemma {:induction false} DataHasSource(es: seq<Entry>, path: Path)
    ensures DataOf(es, path) != [] ==> path in Paths(es)
  {
    if es != [] {
      DataHasSource(es[..|es| - 1], path);
    }
  }

  // -------------------------------------------------------------------------- the loop

  lemma IndexHasData(c: Context, es: seq<Entry>)
    requires Good(c, es) && IndexFile in Paths(es)
    ensures DataOf(es, IndexFile) != []
  {
    var e :| e in es && e.path == IndexFile;
    assert EntryOk(c, e) && MetadataOk(e);
    DataOfMember(es, e);
  }

  /** The checks behind the loop decide what the loop has collected. */
  lemma CollectedIsExact(c: Context, es: seq<Entry>)
    requires Good(c, es)
    ensures Exact(c, es) <==>
      && |es| == 7 && |BlobsOf(es)| == 3 && BlobsDirectory in Paths(es) && DigestDirectory in Paths(es)
      && DataOf(es, IndexFile) != [] && DataOf(es, LayoutFile) == Layout()
  {
    DataHasSource(es, IndexFile);
    DataHasSource(es, LayoutFile);
    if IndexFile in Paths(es) {
      IndexHasData(c, es);
    }
  }

  /** One more entry behind a good prefix. */
  lemma GoodExtends(c: Context, es: seq<Entry>, i: nat)
    requires i < |es| && Good(c, es[..i])
    ensures es[..i + 1] == es[..i] + [es[i]] && Paths(es[..i + 1]) == Paths(es[..i]) + {es[i].path}
    ensures EntryOk(c, es[i]) && es[i].path !in Paths(es[..i]) ==> Good(c, es[..i + 1])
    ensures !EntryOk(c, es[i]) || es[i].path in Paths(es[..i]) ==> !Exact(c, es)
  {
    assert es[..i + 1] == es[..i] + [es[i]];
    if es[i].path in Paths(es[..i]) {
      var e :| e in es[..i] && e.path == es[i].path;
      var k :| 0 <= k < i && es[..i][k] == e;
      assert es[k].path == es[i].path;
    }
  }

  /** What the loop does with one entry under a new path. */
  method Collect(c: Context, e: Entry, blobs: map<string, Blob>, index: Bytes, layout: Bytes)
    returns (ok: bool, blobs': map<string, Blob>, index': Bytes, layout': Bytes)
    requires e.exact
    ensures ok <==> EntryOk(c, e) && (e.path.BlobFile? ==> |blobs| < 3)
    ensures blobs' == if ok && e.path.BlobFile? then blobs[e.path.digest := Retained(e)] else blobs
    ensures index' == if ok && e.path.IndexFile? then e.data else index
    ensures layout' == if ok && e.path.LayoutFile? then e.data else layout
  {
    blobs', index', layout' := blobs, index, layout;
    match e.path
    case BlobsDirectory => ok := DirectoryOk(e);
    case DigestDirectory => ok := DirectoryOk(e);
    case IndexFile =>
      ok := MetadataOk(e);
      index' := if ok then e.data else index;
    case LayoutFile =>
      ok := MetadataOk(e);
      layout' := if ok then e.data else layout;
    case Unexpected(_) => ok := false;
    case BlobFile(digest) =>
      ok := |blobs| < 3 && BlobOk(c, e);
      blobs' := if ok then blobs[digest := Retained(e)] else blobs;
  }

  lemma PrefixStep(c: Context, es: seq<Entry>, i: nat)
    requires i < |es|
    ensures es[..i + 1] == es[..i] + [es[i]] && es[..i + 1][..i] == es[..i]
    ensures BlobsOf(es[..i + 1]) == if es[i].path.BlobFile? then BlobsOf(es[..i])[es[i].path.digest := Retained(es[i])] else BlobsOf(es[..i])
    ensures DataOf(es[..i + 1], IndexFile) == if es[i].path.IndexFile? then es[i].data else DataOf(es[..i], IndexFile)
    ensures DataOf(es[..i + 1], LayoutFile) == if es[i].path.LayoutFile? then es[i].data else DataOf(es[..i], LayoutFile)
  {
    assert es[..i + 1][..i] == es[..i];
  }

  /** The loop: it stops at the first entry that no acceptable archive can hold there. */
  method Gather(c: Context, es: seq<Entry>)
    returns (ok: bool, seen: set<Path>, blobs: map<string, Blob>, indexBytes: Bytes, layoutBytes: Bytes)
    ensures !ok ==> !Exact(c, es)
    ensures ok ==> Good(c, es) && seen == Paths(es) && blobs == BlobsOf(es)
    ensures ok ==> indexBytes == DataOf(es, IndexFile) && layoutBytes == DataOf(es, LayoutFile)
  {
    ok, seen, blobs, indexBytes, layoutBytes := true, {}, map[], [], [];
    for i := 0 to |es|
      invariant ok && i <= 16
      invariant seen == Paths(es[..i]) && Good(c, es[..i])
      invariant blobs == BlobsOf(es[..i])
      invariant indexBytes == DataOf(es[..i], IndexFile) && layoutBytes == DataOf(es[..i], LayoutFile)
    {
      GoodExtends(c, es, i);
      PrefixStep(c, es, i);
      if i + 1 > 16 || !es[i].exact || es[i].path in seen {
        ok := false;
        return;
      }
      ok, blobs, indexBytes, layoutBytes := Collect(c, es[i], blobs, indexBytes, layoutBytes);
      if !ok {
        if Exact(c, es) && es[i].path.BlobFile? {
          NoFourthBlob(c, es, i);
        }
        return;
      }
      seen := seen + {es[i].path};
    }
    assert es[..|es|] == es;
  }

  /** `parseRelayOCIArchive`: accepts exactly the archives that mean something, and returns what
      they mean. `cleanTail` says that nothing but zeros follows, up to the announced size. */
  method ParseArchive(c: Context, es: seq<Entry>, cleanTail: bool) returns (r: Option<string>)
    ensures r == if cleanTail then Meaning(c, es) else None
  {
    var ok, seen, blobs, indexBytes, layoutBytes := Gather(c, es);
    if !ok {
      return None;
    }
    CollectedIsExact(c, es);
    if !cleanTail || |es| != 7 || |blobs| != 3 || BlobsDirectory !in seen || DigestDirectory !in seen || indexBytes == [] || layoutBytes != Layout() {
      return None;
    }
    r := Select(c, indexBytes, blobs);
  }

  // ------------------------------------------------------------------- what it comes to

  lemma {:induction false} DistinctByCount(es: seq<Entry>)
    ensures |Paths(es)| <= |es| && (Distinct(es) <==> |Paths(es)| == |es|)
  {
    if es != [] {
      var init, last := es[..|es| - 1], es[|es| - 1];
      assert es == init + [last];
      DistinctByCount(init);
      assert Paths(es) == Paths(init) + {last.path};
      if Distinct(es) {
        NewPath(es);
      } else if Distinct(init) {
        assert last.path in Paths(init);
      }
    }
  }

  lemma SameEntries(es: seq<Entry>, fs: seq<Entry>)
    requires multiset(es) == multiset(fs)
    ensures |es| == |fs| && (forall e :: e in es <==> e in fs) && Paths(es) == Paths(fs) && (Distinct(es) <==> Distinct(fs))
  {
    assert |multiset(es)| == |es| && |multiset(fs)| == |fs|;
    forall e
      ensures e in es <==> e in fs
    {
      assert e in multiset(es) <==> e in multiset(fs);
    }
    DistinctByCount(es);
    DistinctByCount(fs);
  }

  lemma SameContents(es: seq<Entry>, fs: seq<Entry>, path: Path, d: string)
    requires Distinct(es) && Distinct(fs) && (forall e :: e in es <==> e in fs)
    ensures DataOf(es, path) == DataOf(fs, path)
    ensures (d in BlobsOf(es) <==> d in BlobsOf(fs)) && (d in BlobsOf(es) ==> BlobsOf(es)[d] == BlobsOf(fs)[d])
  {
    DataHasSource(es, path);
    DataHasSource(fs, path);
    if e :| e in es && e.path == path {
      DataOfMember(es, e);
      DataOfMember(fs, e);
    }
    BlobMember(es, d);
    BlobMember(fs, d);
  }

  /** Verdict and result do not depend on the order of the entries. */
  lemma OrderIsIrrelevant(c: Context, es: seq<Entry>, fs: seq<Entry>)
    requires multiset(es) == multiset(fs)
    ensures Meaning(c, es) == Meaning(c, fs)
  {
    SameEntries(es, fs);
    if Distinct(es) {
      SameContents(es, fs, IndexFile, "");
      SameContents(es, fs, LayoutFile, "");
      forall d
        ensures (d in BlobsOf(es) <==> d in BlobsOf(fs)) && (d in BlobsOf(es) ==> BlobsOf(es)[d] == BlobsOf(fs)[d])
      {
        SameContents(es, fs, IndexFile, d);
      }
      assert BlobsOf(es) == BlobsOf(fs);
    }
  }

  /** An accepted archive is one manifest, its configuration and its layer: three different blobs
      that are all there is, each stored under the digest of what it holds and as long as its
      descriptor says. */
  lemma AcceptedGraph(c: Context, es: seq<Entry>) returns (manifest: string, config: string, layer: string)
    requires Meaning(c, es).Some?
    ensures BlobsOf(es).Keys == {manifest, config, layer} && manifest != config && config != layer && manifest != layer
    ensures Meaning(c, es) == Some("sha256:" + config)
    ensures forall d <- {manifest, config, layer} :: exists e <- es :: e.path == BlobFile(d) && c.sha(e.data) == d && |e.data| == BlobsOf(es)[d].size
    ensures c.index(DataOf(es, IndexFile)).Some? && IndexSelects(c, c.index(DataOf(es, IndexFile)).value)
    ensures c.manifest(BlobsOf(es)[manifest].contents).Some? && ManifestFits(c.manifest(BlobsOf(es)[manifest].contents).value)
    ensures c.config(BlobsOf(es)[config].contents).Some? && ConfigFits(c, c.config(BlobsOf(es)[config].contents).value, layer)
  {
    var blobs := BlobsOf(es);
    var index := c.index(DataOf(es, IndexFile)).value;
    manifest := Referenced(index.manifests[0].descriptor, blobs).value;
    var m := c.manifest(blobs[manifest].contents).value;
    config, layer := Referenced(m.config, blobs).value, Referenced(m.layers[0], blobs).value;
    ThreeKeys(blobs, manifest, config, layer);
    forall d <- {manifest, config, layer}
      ensures exists e <- es :: e.path == BlobFile(d) && c.sha(e.data) == d && |e.data| == blobs[d].size
    {
      BlobMember(es, d);
      var e :| e in es && e.path == BlobFile(d) && blobs[d] == Retained(e);
      assert EntryOk(c, e);
    }
  }

  lemma ThreeKeys(m: map<string, Blob>, a: string, b: string, c: string)
    requires |m| == 3 && a in m && b in m && c in m && a != b && b != c && a != c
    ensures m.Keys == {a, b, c}
  {
    assert m.Keys == {a, b, c} + (m.Keys - {a, b, c});
    assert |{a, b, c}| == 3;
  }
}
