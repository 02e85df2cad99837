/** What `TrustedRunner._verify_bundle` (src/sddgov/trusted_runner.py) accepts, said of the entries of the
    archive one by one: which names there are, what each is, and which digest its bytes have. */
module SealedBundle {
  import opened Common
  import opened Bundle

  // ---------------------------------------------------------------- safe names

  function Joined(parts: seq<string>): string
    requires parts != []
  {
    if |parts| == 1 then parts[0] else parts[0] + "/" + Joined(parts[1..])
  }

  predicate AreParts(parts: seq<string>) {
    parts != [] && forall k :: 0 <= k < |parts| ==> '/' !in parts[k]
  }

  /** A relative path of plain parts, none of which goes up. */
  ghost predicate PlainParts(parts: seq<string>, name: string) {
    && AreParts(parts) && Joined(parts) == name && parts[0] != ""
    && forall k :: 0 <= k < |parts| ==> parts[k] != ".." && '\0' !in parts[k] && '\\' !in parts[k]
  }

  lemma {:induction false} PartsOf(name: string) returns (parts: seq<string>)
    ensures AreParts(parts) && Joined(parts) == name
    decreases |name|
  {
    if '/' !in name {
      parts := [name];
    } else {
      var i := FirstSlash(name);
      var rest := PartsOf(name[i + 1..]);
      parts := [name[..i]] + rest;
      assert parts[1..] == rest;
      assert name == name[..i] + "/" + name[i + 1..];
    }
  }

  lemma {:induction false} FirstSlash(name: string) returns (i: nat)
    requires '/' in name
    ensures i < |name| && name[i] == '/' && '/' !in name[..i]
    decreases |name|
  {
    if name[0] == '/' {
      i := 0;
    } else {
      var j := FirstSlash(name[1..]);
      i := j + 1;
      assert name[..i] == [name[0]] + name[1..][..j];
    }
  }

  lemma {:induction false} CharsOf(parts: seq<string>, c: char)
    requires AreParts(parts) && c != '/'
    ensures c in Joined(parts) <==> exists k :: 0 <= k < |parts| && c in parts[k]
    decreases |parts|
  {
    if |parts| > 1 {
      CharsOf(parts[1..], c);
      if k :| 0 <= k < |parts| && c in parts[k] {
        if k > 0 {
          assert c in parts[1..][k - 1];
        }
      }
      if k :| 0 <= k < |parts[1..]| && c in parts[1..][k] {
        assert c in parts[k + 1];
      }
    }
  }

  ghost predicate Climbs(name: string) {
    exists i :: 0 <= i <= |name| && ClimbsAt(name, i)
  }

  lemma FirstClimbs(p: string, rest: string)
    requires '/' !in p
    ensures Climbs(p + "/" + rest) <==> p == ".." || Climbs(rest)
  {
    var s := p + "/" + rest;
    if i :| 0 <= i <= |s| && ClimbsAt(s, i) {
      if i <= |p| {
        assert s[|p|] == '/' && forall j :: 0 <= j < |p| ==> s[j] == p[j] && p[j] != '/';
        assert p == "..";
      } else {
        ClimbsLater(p, rest, i);
      }
    }
    if p == ".." {
      assert ClimbsAt(s, 0);
    }
    if i :| 0 <= i <= |rest| && ClimbsAt(rest, i) {
      ClimbsLater(p, rest, |p| + 1 + i);
      assert ClimbsAt(s, |p| + 1 + i);
    }
  }

  lemma ClimbsLater(p: string, rest: string, i: nat)
    requires |p| < i <= |p| + 1 + |rest|
    ensures ClimbsAt(p + "/" + rest, i) <==> ClimbsAt(rest, i - |p| - 1)
  {
    var s, n := p + "/" + rest, |p| + 1;
    assert |s| == n + |rest| && s[n - 1] == '/';
    forall k | n <= k < |s| ensures s[k] == rest[k - n] {
      assert s == (p + "/") + rest;
    }
  }

  lemma LastClimbs(p: string)
    requires '/' !in p
    ensures Climbs(p) <==> p == ".."
  {
    if p == ".." {
      assert ClimbsAt(p, 0);
    }
    if i :| 0 <= i <= |p| && ClimbsAt(p, i) {
      assert forall j :: 0 <= j < |p| ==> p[j] != '/';
    }
  }

  lemma {:induction false} ClimbingPart(parts: seq<string>)
    requires AreParts(parts)
    ensures Climbs(Joined(parts)) <==> ".." in parts
    decreases |parts|
  {
    hide Climbs;
    if |parts| == 1 {
      LastClimbs(parts[0]);
    } else {
      ClimbingPart(parts[1..]);
      FirstClimbs(parts[0], Joined(parts[1..]));
      assert parts == [parts[0]] + parts[1..];
    }
  }

  lemma Front(parts: seq<string>)
    requires AreParts(parts)
    ensures parts[0] != "" <==> Joined(parts) != "" && Joined(parts)[0] != '/'
  {
    if parts[0] != "" {
      assert Joined(parts)[0] == parts[0][0] && parts[0][0] in parts[0];
    }
  }

  /** A name is safe exactly if it is a relative path of parts none of which is "..", without a NUL or a
      backslash. */
  lemma SafeIff(name: string)
    ensures SafePath(name) <==> exists parts :: PlainParts(parts, name)
  {
    hide ClimbsAt, Joined;
    if SafePath(name) {
      var parts := PartsOf(name);
      PartsAreSafe(parts);
      assert PlainParts(parts, name);
    }
    if parts :| PlainParts(parts, name) {
      PartsAreSafe(parts);
    }
  }

  lemma PartsAreSafe(parts: seq<string>)
    requires AreParts(parts)
    ensures SafePath(Joined(parts)) <==> PlainParts(parts, Joined(parts))
  {
    hide ClimbsAt, Joined;
    CharsOf(parts, '\0');
    CharsOf(parts, '\\');
    ClimbingPart(parts);
    Front(parts);
  }

  // ---------------------------------------------------------------- what is sealed

  /** The files whose content an operation replaces, keeping the original beside it. */
  const CONTAINED: set<string> := {
    "agent/relay_llm.py", "agent/auxiliary_client.py", "hermes_cli/auth.py", "gateway/platforms/api_server.py",
    "agent/transports/codex.py"}

  /** An entry of this name has bytes of this digest. */
  ghost predicate Has(es: seq<Entry>, name: string, d: Digest) {
    exists k :: 0 <= k < |es| && es[k].name == name && Sha256(es[k].bytes) == d
  }

  ghost predicate Named(es: seq<Entry>, name: string) {
    exists k :: 0 <= k < |es| && es[k].name == name
  }

  /** One entry: a plain stored file under a safe name. */
  ghost predicate EntrySealed(e: Entry) {
    (exists parts :: PlainParts(parts, e.name)) && !e.isDir && e.stored && !e.encrypted
  }

  /** One row of the manifest, and the bytes it is about. */
  ghost predicate RowSealed(op: Operation, es: seq<Entry>, r: SourceEntry) {
    && (exists parts :: PlainParts(parts, r.path))
    && r.path != ".agent-factory" && (forall rest :: r.path != ".agent-factory/" + rest)
    && (r.kind, r.mode) in {("file", "100644"), ("file", "100755"), ("symlink", "120000")}
    && Named(es, r.path)
    && if r.path in CONTAINED
       then Has(es, ".agent-factory/original/" + r.path, r.hash) && r.path in op.sources && op.sources[r.path] == r.hash
       else Has(es, r.path, r.hash)
  }

  /** The three kinds of name. */
  ghost predicate Accounted(m: seq<SourceEntry>, name: string) {
    || name == ".agent-factory/source-tree-manifest.json"
    || (exists k :: 0 <= k < |m| && m[k].path == name)
    || (exists k :: 0 <= k < |m| && m[k].path in CONTAINED && ".agent-factory/original/" + m[k].path == name)
  }

  ghost predicate Sealed(c: Codec, op: Operation, es: seq<Entry>, m: seq<SourceEntry>) {
    && |es| == op.entryCount && Total(es) <= op.size
    && (forall j, k :: 0 <= j < k < |es| ==> es[j].name != es[k].name)
    && (forall k :: 0 <= k < |es| ==> EntrySealed(es[k]) && Accounted(m, es[k].name))
    && m != [] && c.read(c.write(m)) == Some(m) && Sha256(c.write(m)) == op.sourceTreeHash
    && Has(es, ".agent-factory/source-tree-manifest.json", op.sourceTreeHash)
    && (forall j, k :: 0 <= j < k < |m| ==> m[j].path != m[k].path)
    && (forall k :: 0 <= k < |m| ==> RowSealed(op, es, m[k]))
    && (forall name :: name in op.managed ==> Has(es, name, op.managed[name]))
  }

  /** The size is the sum over the entries. */
  lemma {:induction false} TotalsAdd(a: seq<Entry>, b: seq<Entry>)
    ensures Total(a + b) == Total(a) + Total(b) && (|a| == 1 ==> Total(a) == |a[0].bytes|)
    decreases |b|
  {
    if b == [] {
      assert a + b == a;
      assert |a| == 1 ==> a[..0] == [];
    } else {
      var n := |b| - 1;
      TotalsAdd(a, b[..n]);
      assert (a + b)[..|a + b| - 1] == a + b[..n];
    }
  }

  // ---------------------------------------------------------------- the same as the procedure's

  lemma {:induction false} ContentsAt(es: seq<Entry>, k: nat)
    requires Unique(es) && k < |es|
    ensures es[k].name in Contents(es) && Contents(es)[es[k].name] == es[k].bytes
    decreases |es|
  {
    var n := |es| - 1;
    if k < n {
      ContentsAt(es[..n], k);
      assert es[..n][k] == es[k];
    }
  }

  lemma HasIff(es: seq<Entry>, name: string, d: Digest)
    requires Unique(es)
    ensures Has(es, name, d) <==> name in Contents(es) && Sha256(Contents(es)[name]) == d
    ensures Named(es, name) <==> name in Contents(es)
  {
    hide Contents;
    ContentsKeys(es);
    if k :| 0 <= k < |es| && es[k].name == name {
      forall j | 0 <= j < |es| && es[j].name == name ensures j == k {}
      ContentsAt(es, k);
    }
  }

  lemma SameContained(path: string)
    ensures path in MANAGED_PATHS <==> path in CONTAINED
    ensures OriginalName(path) == if path in CONTAINED then ".agent-factory/original/" + path else path
  {}

  lemma UnderFactory(path: string)
    ensures FACTORY + "/" <= path <==> exists rest :: path == ".agent-factory/" + rest
  {
    if FACTORY + "/" <= path {
      assert path == ".agent-factory/" + path[|FACTORY| + 1..];
    }
    if rest :| path == ".agent-factory/" + rest {
      assert FACTORY + "/" == ".agent-factory/";
    }
  }

  lemma EntryIff(e: Entry)
    ensures EntryOk(e) <==> EntrySealed(e)
  {
    hide SafePath, PlainParts;
    SafeIff(e.name);
  }

  lemma ShapeIff(r: SourceEntry)
    ensures SourceShapeOk(r) <==>
            && (exists parts :: PlainParts(parts, r.path))
            && r.path != ".agent-factory" && (forall rest :: r.path != ".agent-factory/" + rest)
            && (r.kind, r.mode) in {("file", "100644"), ("file", "100755"), ("symlink", "120000")}
  {
    hide SafePath, PlainParts;
    SafeIff(r.path);
    UnderFactory(r.path);
  }

  lemma RowIff(op: Operation, es: seq<Entry>, r: SourceEntry)
    requires Unique(es)
    ensures RowSealed(op, es, r) <==> SourceOk(op, Contents(es), r) && r.path in Contents(es)
  {
    hide SourceShapeOk, PlainParts, Unique, Has, Named, Contents, MANAGED_PATHS, CONTAINED, OriginalName;
    ShapeIff(r);
    SameContained(r.path);
    HasIff(es, r.path, r.hash);
    HasIff(es, ".agent-factory/original/" + r.path, r.hash);
  }

  lemma {:induction false} ExpectedIff(m: seq<SourceEntry>, name: string)
    ensures name in Expected(m) <==> Accounted(m, name)
    decreases |m|
  {
    hide OriginalName, CONTAINED, MANAGED_PATHS;
    if m != [] {
      var n := |m| - 1;
      ExpectedIff(m[..n], name);
      SameContained(m[n].path);
      AccountedNext(m, name);
    }
  }

  lemma AccountedNext(m: seq<SourceEntry>, name: string)
    requires m != []
    ensures
      var n := |m| - 1;
      Accounted(m, name) <==>
      || Accounted(m[..n], name) || name == m[n].path
      || (m[n].path in CONTAINED && ".agent-factory/original/" + m[n].path == name)
  {
    hide CONTAINED;
    var n := |m| - 1;
    if k :| 0 <= k < |m| && m[k].path == name {
      assert k < n ==> m[..n][k].path == name;
    }
    if k :| 0 <= k < |m| && m[k].path in CONTAINED && ".agent-factory/original/" + m[k].path == name {
      assert k < n ==> m[..n][k] == m[k];
    }
    if k :| 0 <= k < n && m[..n][k].path == name {
      assert m[k].path == name;
    }
    if k :| 0 <= k < n && m[..n][k].path in CONTAINED && ".agent-factory/original/" + m[..n][k].path == name {
      assert m[k] == m[..n][k];
    }
  }

  /** The names are exactly those accounted for. */
  lemma NamesIff(op: Operation, es: seq<Entry>, m: seq<SourceEntry>)
    requires Unique(es) && ManifestOk(op, Contents(es), m) && SOURCE_MANIFEST_PATH in Contents(es)
    ensures Names(es) == Expected(m) <==>
            && (forall k :: 0 <= k < |es| ==> Accounted(m, es[k].name))
            && (forall k :: 0 <= k < |m| ==> m[k].path in Contents(es))
  {
    hide Unique, Contents, Expected, Accounted, ManifestOk, SOURCE_MANIFEST_PATH, Names;
    if Names(es) == Expected(m) {
      NamesOnly(es, m);
    }
    if (forall k :: 0 <= k < |es| ==> Accounted(m, es[k].name)) && (forall k :: 0 <= k < |m| ==> m[k].path in Contents(es)) {
      ContentsKeys(es);
      forall name ensures name in Names(es) <==> name in Expected(m) {
        ExpectedIff(m, name);
        if Accounted(m, name) {
          AccountedIsThere(op, es, m, name);
        }
        NamedIs(es, name);
      }
    }
  }

  lemma NamedIs(es: seq<Entry>, name: string)
    ensures name in Names(es) <==> exists k :: 0 <= k < |es| && es[k].name == name
  {}

  lemma NamesOnly(es: seq<Entry>, m: seq<SourceEntry>)
    requires Names(es) == Expected(m)
    ensures forall k :: 0 <= k < |es| ==> Accounted(m, es[k].name)
    ensures forall k :: 0 <= k < |m| ==> m[k].path in Contents(es)
  {
    hide Contents, Expected, Accounted;
    ContentsKeys(es);
    forall k | 0 <= k < |es| ensures Accounted(m, es[k].name) {
      assert es[k].name in Names(es);
      ExpectedIff(m, es[k].name);
    }
    forall k | 0 <= k < |m| ensures m[k].path in Contents(es) {
      PathAccounted(m, k);
      ExpectedIff(m, m[k].path);
    }
  }

  lemma PathAccounted(m: seq<SourceEntry>, k: nat)
    requires k < |m|
    ensures Accounted(m, m[k].path)
  {}

  lemma AccountedIsThere(op: Operation, es: seq<Entry>, m: seq<SourceEntry>, name: string)
    requires ManifestOk(op, Contents(es), m) && SOURCE_MANIFEST_PATH in Contents(es) && Accounted(m, name)
    requires forall k :: 0 <= k < |m| ==> m[k].path in Contents(es)
    ensures name in Contents(es)
  {
    hide Contents, SourceShapeOk, MANAGED_PATHS, CONTAINED, OriginalName;
    if name != SOURCE_MANIFEST_PATH && !exists k :: 0 <= k < |m| && m[k].path == name {
      var k :| 0 <= k < |m| && m[k].path in CONTAINED && ".agent-factory/original/" + m[k].path == name;
      assert SourceOk(op, Contents(es), m[k]);
      SameContained(m[k].path);
    }
  }

  lemma ManifestIff(c: Codec, es: seq<Entry>, op: Operation, m: seq<SourceEntry>)
    requires Unique(es)
    ensures ManifestOf(c, Contents(es)) == Some(m) && Sha256(c.write(m)) == op.sourceTreeHash <==>
            && m != [] && c.read(c.write(m)) == Some(m) && Sha256(c.write(m)) == op.sourceTreeHash
            && Has(es, ".agent-factory/source-tree-manifest.json", op.sourceTreeHash)
  {
    hide Unique, Contents, Has, Named;
    HasIff(es, ".agent-factory/source-tree-manifest.json", op.sourceTreeHash);
  }

  lemma SealedOf(c: Codec, op: Operation, es: seq<Entry>, m: seq<SourceEntry>)
    ensures Sealed(c, op, es, m) <==> Accepted(c, op, es) && ManifestOf(c, Contents(es)) == Some(m)
  {
    hide Contents, Names, Expected, Total, SourceOk, ManifestOf, EntryOk, EntrySealed, RowSealed, Accounted, Has, SOURCE_MANIFEST_PATH;
    if Unique(es) {
      ManifestIff(c, es, op, m);
      forall e: Entry ensures EntryOk(e) <==> EntrySealed(e) {
        EntryIff(e);
      }
      forall r: SourceEntry ensures RowSealed(op, es, r) <==> SourceOk(op, Contents(es), r) && r.path in Contents(es) {
        RowIff(op, es, r);
      }
      forall name, d ensures Has(es, name, d) <==> name in Contents(es) && Sha256(Contents(es)[name]) == d {
        HasIff(es, name, d);
      }
      if ManifestOf(c, Contents(es)) == Some(m) {
        assert SOURCE_MANIFEST_PATH in Contents(es) by { ManifestIsThere(c, Contents(es)); }
        if ManifestOk(op, Contents(es), m) {
          NamesIff(op, es, m);
        }
      }
    }
  }

  lemma ManifestIsThere(c: Codec, files: map<string, Bytes>)
    requires ManifestOf(c, files).Some?
    ensures SOURCE_MANIFEST_PATH in files
  {}

  /** Exactly which archives are accepted for an operation. */
  lemma AcceptedIff(c: Codec, op: Operation, es: seq<Entry>)
    ensures Accepted(c, op, es) <==> exists m :: Sealed(c, op, es, m)
  {
    hide Accepted, Sealed, ManifestOf, Contents;
    if Accepted(c, op, es) {
      AcceptedHasManifest(c, op, es);
      SealedOf(c, op, es, ManifestOf(c, Contents(es)).value);
    }
    if m :| Sealed(c, op, es, m) {
      SealedOf(c, op, es, m);
    }
  }

  lemma AcceptedHasManifest(c: Codec, op: Operation, es: seq<Entry>)
    requires Accepted(c, op, es)
    ensures ManifestOf(c, Contents(es)).Some?
  {
    hide ManifestOf, Contents, ManifestOk;
  }
}
