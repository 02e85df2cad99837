/** The entry accounting of a sealed bundle (`TrustedRunner._verify_bundle`,
    src/sddgov/trusted_runner.py): what an archive may hold once the operation fixes the source tree
    and the managed files by their digests. */
module Bundle {
  import opened Common

  const MANAGED_PATHS: set<string> := {
    "agent/relay_llm.py", "agent/auxiliary_client.py", "hermes_cli/auth.py", "gateway/platforms/api_server.py",
    "agent/transports/codex.py"}
  const SOURCE_MANIFEST_PATH: string := ".agent-factory/source-tree-manifest.json"
  const ORIGINAL_SOURCE_PREFIX: string := ".agent-factory/original/"
  const FACTORY: string := ".agent-factory"

  datatype Entry = Entry(name: string, bytes: Bytes, isDir: bool, stored: bool, encrypted: bool)

  datatype SourceEntry = SourceEntry(path: string, kind: string, mode: string, hash: Digest)

  /** What the signed operation says; `managed` and `sources` have exactly the managed paths as keys. */
  datatype Operation = Operation(
    entryCount: nat, size: nat, sourceTreeHash: Digest, managed: map<string, Digest>, sources: map<string, Digest>)

  /** Canonical JSON of a source manifest: how it is written and how it is read. */
  datatype Codec = Codec(write: seq<SourceEntry> -> Bytes, read: Bytes -> Option<seq<SourceEntry>>)

  // ---------------------------------------------------------------- names

  predicate ClimbsAt(name: string, i: nat) {
    && i + 2 <= |name| && name[i] == '.' && name[i + 1] == '.'
    && (i == 0 || name[i - 1] == '/') && (i + 2 == |name| || name[i + 2] == '/')
  }

  predicate SafePath(name: string) {
    && name != "" && '\0' !in name && '\\' !in name && name[0] != '/'
    && !exists i :: 0 <= i <= |name| && ClimbsAt(name, i)
  }

  predicate EntryOk(e: Entry) {
    SafePath(e.name) && !e.isDir && e.stored && !e.encrypted
  }

  predicate SourceShapeOk(e: SourceEntry) {
    && SafePath(e.path) && e.path != FACTORY && !(FACTORY + "/" <= e.path)
    && ((e.kind == "file" && (e.mode == "100644" || e.mode == "100755")) || (e.kind == "symlink" && e.mode == "120000"))
  }

  /** Where the source bytes of a manifest row are kept. */
  function OriginalName(path: string): string {
    if path in MANAGED_PATHS then ORIGINAL_SOURCE_PREFIX + path else path
  }

  // ---------------------------------------------------------------- archives as maps

  predicate Unique(es: seq<Entry>) {
    forall j, k :: 0 <= j < k < |es| ==> es[j].name != es[k].name
  }

  function Names(es: seq<Entry>): set<string> {
    set k | 0 <= k < |es| :: es[k].name
  }

  function Contents(es: seq<Entry>): map<string, Bytes> {
    if es == [] then map[] else Contents(es[..|es| - 1])[es[|es| - 1].name := es[|es| - 1].bytes]
  }

  function Total(es: seq<Entry>): nat {
    if es == [] then 0 else Total(es[..|es| - 1]) + |es[|es| - 1].bytes|
  }

  function Paths(m: seq<SourceEntry>): set<string> {
    set k | 0 <= k < |m| :: m[k].path
  }

  function Expected(m: seq<SourceEntry>): set<string> {
    if m == [] then {SOURCE_MANIFEST_PATH}
    else Expected(m[..|m| - 1]) + {m[|m| - 1].path, OriginalName(m[|m| - 1].path)}
  }

  // ---------------------------------------------------------------- what is accepted

  predicate SourceOk(op: Operation, files: map<string, Bytes>, e: SourceEntry) {
    && SourceShapeOk(e)
    && (e.path in MANAGED_PATHS ==> e.path in op.sources && op.sources[e.path] == e.hash)
    && OriginalName(e.path) in files && Sha256(files[OriginalName(e.path)]) == e.hash
  }

  predicate ManifestOk(op: Operation, files: map<string, Bytes>, m: seq<SourceEntry>) {
    && (forall k :: 0 <= k < |m| ==> SourceOk(op, files, m[k]))
    && (forall j, k :: 0 <= j < k < |m| ==> m[j].path != m[k].path)
  }

  predicate ManagedOk(op: Operation, files: map<string, Bytes>) {
    forall name :: name in op.managed ==> name in files && Sha256(files[name]) == op.managed[name]
  }

  /** The manifest of an archive, if it is there in canonical form. */
  function ManifestOf(c: Codec, files: map<string, Bytes>): Option<seq<SourceEntry>> {
    if SOURCE_MANIFEST_PATH !in files then None else
      var raw := files[SOURCE_MANIFEST_PATH];
      var m := c.read(raw);
      if m.None? || m.value == [] || c.write(m.value) != raw then None else m
  }

  predicate Accepted(c: Codec, op: Operation, es: seq<Entry>) {
    var files := Contents(es);
    var m := ManifestOf(c, files);
    && |es| == op.entryCount && Unique(es)
    && (forall k :: 0 <= k < |es| ==> EntryOk(es[k]))
    && Total(es) <= op.size
    && m.Some? && ManifestOk(op, files, m.value)
    && Names(es) == Expected(m.value)
    && Sha256(c.write(m.value)) == op.sourceTreeHash
    && ManagedOk(op, files)
  }

  // ---------------------------------------------------------------- the procedure

  method CheckEntries(op: Operation, es: seq<Entry>) returns (ok: bool, names: set<string>, files: map<string, Bytes>)
    ensures ok <==> |es| == op.entryCount && Unique(es) && (forall k :: 0 <= k < |es| ==> EntryOk(es[k])) && Total(es) <= op.size
    ensures ok ==> names == Names(es) && files == Contents(es)
  {
    hide SafePath;
    names, files := {}, map[];
    if |es| != op.entryCount {
      return false, names, files;
    }
    var total, i := 0, 0;
    while i < |es|
      invariant 0 <= i <= |es|
      invariant Unique(es[..i]) && (forall k :: 0 <= k < i ==> EntryOk(es[k]))
      invariant total == Total(es[..i]) && names == Names(es[..i]) && files == Contents(es[..i])
    {
      assert es[..i + 1][..i] == es[..i];
      if es[i].name in names {
        return false, names, files;
      }
      if !EntryOk(es[i]) {
        return false, names, files;
      }
      NamesNext(es, i);
      total, names := total + |es[i].bytes|, names + {es[i].name};
      files := files[es[i].name := es[i].bytes];
      i := i + 1;
    }
    assert es[..i] == es;
    ok := total <= op.size;
  }

  lemma NamesNext(es: seq<Entry>, i: nat)
    requires i < |es|
    ensures Names(es[..i + 1]) == Names(es[..i]) + {es[i].name}
  {
    var before, after := es[..i], es[..i + 1];
    assert after == before + [es[i]];
    forall n | n in Names(after) ensures n in Names(before) + {es[i].name} {
      var k :| 0 <= k < |after| && after[k].name == n;
      assert k < i ==> before[k].name == n;
    }
    forall n | n in Names(before) ensures n in Names(after) {
      var k :| 0 <= k < |before| && before[k].name == n;
      assert after[k].name == n;
    }
    assert after[i].name in Names(after);
  }

  method CheckManifest(op: Operation, files: map<string, Bytes>, m: seq<SourceEntry>) returns (ok: bool, expected: set<string>)
    ensures ok <==> ManifestOk(op, files, m)
    ensures ok ==> expected == Expected(m)
  {
    hide SourceShapeOk, OriginalName, MANAGED_PATHS, SOURCE_MANIFEST_PATH;
    var paths: set<string> := {};
    expected := {SOURCE_MANIFEST_PATH};
    var i := 0;
    while i < |m|
      invariant 0 <= i <= |m|
      invariant paths == Paths(m[..i]) && expected == Expected(m[..i])
      invariant forall k :: 0 <= k < i ==> SourceOk(op, files, m[k])
      invariant forall j, k :: 0 <= j < k < i ==> m[j].path != m[k].path
    {
      var e := m[i];
      assert m[..i + 1][..i] == m[..i];
      PathsNext(m, i);
      if e.path in paths {
        var k :| 0 <= k < |m[..i]| && m[..i][k].path == e.path;
        assert m[k].path == m[i].path;
        return false, expected;
      }
      if !SourceOk(op, files, e) {
        return false, expected;
      }
      paths, expected := paths + {e.path}, expected + {e.path, OriginalName(e.path)};
      i := i + 1;
    }
    assert m[..i] == m;
    ok := true;
  }

  lemma PathsNext(m: seq<SourceEntry>, i: nat)
    requires i < |m|
    ensures Paths(m[..i + 1]) == Paths(m[..i]) + {m[i].path}
    ensures m[i].path !in Paths(m[..i]) ==> forall k :: 0 <= k < i ==> m[k].path != m[i].path
  {
    var before, after := m[..i], m[..i + 1];
    assert after == before + [m[i]];
    forall n | n in Paths(after) ensures n in Paths(before) + {m[i].path} {
      var k :| 0 <= k < |after| && after[k].path == n;
      assert k < i ==> before[k].path == n;
    }
    forall n | n in Paths(before) ensures n in Paths(after) {
      var k :| 0 <= k < |before| && before[k].path == n;
      assert after[k].path == n;
    }
    assert after[i].path in Paths(after);
    assert forall k :: 0 <= k < i ==> m[k] == before[k];
  }

  /** TrustedRunner._verify_bundle, after the archive itself has been matched with its seal */
  method VerifyBundle(c: Codec, op: Operation, es: seq<Entry>) returns (ok: bool)
    ensures ok <==> Accepted(c, op, es)
  {
    hide ManifestOk, Names, Contents, Total, Expected, EntryOk, Unique;
    var entriesOk, names, files := CheckEntries(op, es);
    if !entriesOk {
      return false;
    }
    var m := ManifestOf(c, files);
    if m.None? {
      return false;
    }
    var manifestOk, expected := CheckManifest(op, files, m.value);
    if !manifestOk {
      return false;
    }
    if names != expected || Sha256(c.write(m.value)) != op.sourceTreeHash {
      return false;
    }
    ok := forall name :: name in op.managed ==> name in files && Sha256(files[name]) == op.managed[name];
  }

  // ---------------------------------------------------------------- determinism

  lemma {:induction false} ContentsKeys(es: seq<Entry>)
    ensures Contents(es).Keys == Names(es)
    decreases |es|
  {
    if es != [] {
      var n := |es| - 1;
      ContentsKeys(es[..n]);
      NamesNext(es, n);
      assert es[..n + 1] == es;
    }
  }

  /** The four kinds of entry. */
  lemma {:induction false} ExpectedAre(m: seq<SourceEntry>, name: string)
    requires name in Expected(m)
    ensures name == SOURCE_MANIFEST_PATH
            || exists k :: 0 <= k < |m| && (name == m[k].path || name == OriginalName(m[k].path))
    decreases |m|
  {
    if m != [] {
      var n := |m| - 1;
      if name in Expected(m[..n]) {
        ExpectedAre(m[..n], name);
        if name != SOURCE_MANIFEST_PATH {
          var k :| 0 <= k < n && (name == m[..n][k].path || name == OriginalName(m[..n][k].path));
          assert m[k] == m[..n][k];
        }
      } else {
        assert name == m[n].path || name == OriginalName(m[n].path);
      }
    }
  }

  /** The digest that fixes an entry of an accepted archive: the source tree's for the manifest, the
      manifest row's for a source file or an original, the operation's for a managed file. */
  lemma EntryIsFixed(c: Codec, op: Operation, es: seq<Entry>, name: string)
    requires Accepted(c, op, es) && name in Contents(es) && op.managed.Keys == MANAGED_PATHS
    ensures
      var files := Contents(es);
      var m := ManifestOf(c, files).value;
      || (name == SOURCE_MANIFEST_PATH && Sha256(files[name]) == op.sourceTreeHash)
      || (name in MANAGED_PATHS && Sha256(files[name]) == op.managed[name])
      || (exists k :: 0 <= k < |m| && name == OriginalName(m[k].path) && Sha256(files[name]) == m[k].hash)
  {
    hide Names, Contents, Total, Expected, EntryOk, Unique, SourceShapeOk, MANAGED_PATHS;
    var files := Contents(es);
    var m := ManifestOf(c, files).value;
    ContentsKeys(es);
    ExpectedAre(m, name);
    if name != SOURCE_MANIFEST_PATH && name !in MANAGED_PATHS {
      var k :| 0 <= k < |m| && (name == m[k].path || name == OriginalName(m[k].path));
      assert SourceOk(op, files, m[k]);
      assert name == OriginalName(m[k].path);
    }
  }

  /** Two accepted archives have the same manifest. */
  lemma SameManifest(c: Codec, op: Operation, a: seq<Entry>, b: seq<Entry>)
    requires Accepted(c, op, a) && Accepted(c, op, b)
    ensures ManifestOf(c, Contents(a)) == ManifestOf(c, Contents(b))
  {
    hide Names, Contents, Total, Expected, EntryOk, Unique, ManifestOk, ManagedOk;
    var fa, fb := Contents(a), Contents(b);
    assert fa[SOURCE_MANIFEST_PATH] == op.sourceTreeHash.preimage == fb[SOURCE_MANIFEST_PATH];
  }

  lemma SameBytes(c: Codec, op: Operation, a: seq<Entry>, b: seq<Entry>, name: string)
    requires Accepted(c, op, a) && Accepted(c, op, b) && op.managed.Keys == MANAGED_PATHS
    requires name in Contents(a) && name in Contents(b)
    ensures Contents(a)[name] == Contents(b)[name]
  {
    hide Names, Contents, Total, Expected, EntryOk, Unique, SourceShapeOk, MANAGED_PATHS, SOURCE_MANIFEST_PATH;
    SameManifest(c, op, a, b);
    EntryIsFixed(c, op, a, name);
    EntryIsFixed(c, op, b, name);
    var fa, fb := Contents(a), Contents(b);
    var m := ManifestOf(c, fa).value;
    if k :| 0 <= k < |m| && name == OriginalName(m[k].path) {
      assert SourceOk(op, fa, m[k]) && SourceOk(op, fb, m[k]);
    }
  }

  /** Bundle determinism: any two archives accepted for the same operation hold the same names with
      the same bytes. */
  lemma AcceptedIsDetermined(c: Codec, op: Operation, a: seq<Entry>, b: seq<Entry>)
    requires Accepted(c, op, a) && Accepted(c, op, b) && op.managed.Keys == MANAGED_PATHS
    ensures Contents(a) == Contents(b)
  {
    hide Accepted, Contents, Names, Expected;
    assert Contents(a).Keys == Contents(b).Keys by {
      SameNames(c, op, a, b);
    }
    forall name | name in Contents(a) ensures Contents(a)[name] == Contents(b)[name] {
      SameBytes(c, op, a, b, name);
    }
  }

  lemma SameNames(c: Codec, op: Operation, a: seq<Entry>, b: seq<Entry>)
    requires Accepted(c, op, a) && Accepted(c, op, b)
    ensures Contents(a).Keys == Contents(b).Keys
  {
    hide Contents, Names, Expected, Total, EntryOk, Unique, ManifestOk, ManagedOk;
    SameManifest(c, op, a, b);
    ContentsKeys(a);
    ContentsKeys(b);
  }

  /** Every managed path is a source path too: its original is in the archive beside it. */
  lemma ManagedHaveOriginals(c: Codec, op: Operation, es: seq<Entry>, name: string)
    requires Accepted(c, op, es) && op.managed.Keys == MANAGED_PATHS && name in MANAGED_PATHS
    ensures ORIGINAL_SOURCE_PREFIX + name in Contents(es)
    ensures name in op.sources && Sha256(Contents(es)[ORIGINAL_SOURCE_PREFIX + name]) == op.sources[name]
  {
    hide Names, Contents, Total, Expected, EntryOk, Unique, SafePath, MANAGED_PATHS;
    var files := Contents(es);
    var m := ManifestOf(c, files).value;
    ContentsKeys(es);
    ExpectedAre(m, name);
    ManagedIsNoFactoryName(name);
    var k :| 0 <= k < |m| && (name == m[k].path || name == OriginalName(m[k].path));
    assert SourceOk(op, files, m[k]);
    assert name == m[k].path;
  }

  lemma ManagedIsNoFactoryName(name: string)
    requires name in MANAGED_PATHS
    ensures name != SOURCE_MANIFEST_PATH && !(ORIGINAL_SOURCE_PREFIX <= name)
  {
    assert name[0] == 'a' || name[0] == 'h' || name[0] == 'g';
  }
}
