/** What a debug evidence package (src/sddgov/evidence.py) says of the files collected into it, which of
    them it never shares, and when it gets from red to proof. */
module DepProvenance {
  import opened Common
  import opened Operations
  import opened DepLifecycle

  // ---------------------------------------------------------------- runs, one operation at a time

  lemma {:induction false} RunSplits(env: Env, d: Dep, a: seq<Op>, b: seq<Op>)
    ensures Run(env, d, a + b) == Run(env, Run(env, d, a), b)
    decreases |a|
  {
    hide Apply;
    if a == [] {
      assert a + b == b;
    } else {
      RunSplits(env, Apply(env, d, a[0]), a[1..], b);
      assert (a + b)[1..] == a[1..] + b;
    }
  }

  lemma RunLast(env: Env, d: Dep, ops: seq<Op>)
    requires ops != []
    ensures Run(env, d, ops) == Apply(env, Run(env, d, ops[..|ops| - 1]), ops[|ops| - 1])
  {
    hide Apply;
    var n := |ops| - 1;
    RunSplits(env, d, ops[..n], [ops[n]]);
    assert ops == ops[..n] + [ops[n]];
    assert Run(env, Run(env, d, ops[..n]), [ops[n]]) == Run(env, Apply(env, Run(env, d, ops[..n]), ops[n]), []);
  }

  /** The package after the first j operations on a new one. */
  ghost function After(env: Env, depId: string, ops: seq<Op>, j: nat): Dep
    requires j <= |ops|
  {
    Run(env, MakeDep(depId), ops[..j])
  }

  lemma AfterNext(env: Env, depId: string, ops: seq<Op>, j: nat)
    requires j < |ops|
    ensures After(env, depId, ops, j + 1) == Apply(env, After(env, depId, ops, j), ops[j])
  {
    hide Apply;
    RunLast(env, MakeDep(depId), ops[..j + 1]);
    assert ops[..j + 1][..j] == ops[..j];
  }

  lemma AfterPrefix(env: Env, depId: string, ops: seq<Op>, n: nat, j: nat)
    requires j <= n <= |ops|
    ensures After(env, depId, ops[..n], j) == After(env, depId, ops, j)
  {
    assert ops[..n][..j] == ops[..j];
  }

  /** This operation is the one that put a file of this name into the package. */
  ghost predicate AddedBy(env: Env, depId: string, ops: seq<Op>, j: nat, name: string) {
    && j < |ops| && ops[j].DoCollect? && ops[j].name == name
    && name !in After(env, depId, ops, j).rawZone && name in After(env, depId, ops, j + 1).rawZone
  }

  // ---------------------------------------------------------------- where rows come from

  /** The row says of the file what the collection with this number brought. */
  ghost predicate Origin(env: Env, depId: string, ops: seq<Op>, d: Dep, row: RawRow, j: nat) {
    && AddedBy(env, depId, ops, j, row.name)
    && row.collector == ops[j].collector && row.media == env.detect(Suffix(row.name), ops[j].bytes)
    && row.sha == Sha256(ops[j].bytes) && row.size == |ops[j].bytes|
    && row.name in d.rawZone && d.rawZone[row.name] == ops[j].bytes
  }

  ghost predicate HasOrigin(env: Env, depId: string, ops: seq<Op>, d: Dep, row: RawRow) {
    exists j: nat :: Origin(env, depId, ops, d, row, j)
  }

  /** Every raw row has its collection, and rows and files match one to one. */
  ghost predicate Booked(env: Env, depId: string, ops: seq<Op>, d: Dep) {
    && (forall k :: 0 <= k < |d.raw| ==> HasOrigin(env, depId, ops, d, d.raw[k]))
    && UniqueNames(d.raw)
    && (forall name :: name in d.rawZone ==> exists k :: 0 <= k < |d.raw| && d.raw[k].name == name)
  }

  /** An origin stays one as the run goes on, if the file stays. */
  lemma OriginStays(env: Env, depId: string, ops: seq<Op>, n: nat, d: Dep, e: Dep, row: RawRow, j: nat)
    requires n < |ops| && Origin(env, depId, ops[..n], d, row, j)
    requires row.name in e.rawZone && e.rawZone[row.name] == d.rawZone[row.name]
    ensures Origin(env, depId, ops, e, row, j)
  {
    hide After, Suffix;
    AfterPrefix(env, depId, ops, n, j);
    AfterPrefix(env, depId, ops, n, j + 1);
  }

  lemma CollectBooks(env: Env, depId: string, ops: seq<Op>, d: Dep)
    requires ops != [] && ops[|ops| - 1].DoCollect? && Booked(env, depId, ops[..|ops| - 1], d)
    requires d == After(env, depId, ops, |ops| - 1)
    ensures Booked(env, depId, ops, Apply(env, d, ops[|ops| - 1]))
  {
    hide After, Suffix, Origin;
    var n := |ops| - 1;
    var e, op := Apply(env, d, ops[n]), ops[n];
    AfterNext(env, depId, ops, n);
    forall k | 0 <= k < |e.raw|
      ensures HasOrigin(env, depId, ops, e, e.raw[k])
    {
      if k < |d.raw| {
        assert HasOrigin(env, depId, ops[..n], d, d.raw[k]);
        var j: nat :| Origin(env, depId, ops[..n], d, d.raw[k], j);
        OriginHere(env, depId, ops[..n], d, d.raw[k], j);
        OriginStays(env, depId, ops, n, d, e, d.raw[k], j);
      } else {
        NewOrigin(env, depId, ops, d, e);
      }
    }
    forall name | name in e.rawZone
      ensures exists k :: 0 <= k < |e.raw| && e.raw[k].name == name
    {
      if name in d.rawZone {
        var k :| 0 <= k < |d.raw| && d.raw[k].name == name;
        assert e.raw[k].name == name;
      } else {
        assert e.raw[|e.raw| - 1].name == name;
      }
    }
    forall j, k | 0 <= j < k < |e.raw|
      ensures e.raw[j].name != e.raw[k].name
    {
      if k == |d.raw| {
        assert HasOrigin(env, depId, ops[..n], d, d.raw[j]);
        var i: nat :| Origin(env, depId, ops[..n], d, d.raw[j], i);
        OriginHere(env, depId, ops[..n], d, d.raw[j], i);
      }
    }
  }

  lemma OriginHere(env: Env, depId: string, ops: seq<Op>, d: Dep, row: RawRow, j: nat)
    requires Origin(env, depId, ops, d, row, j)
    ensures row.name in d.rawZone && j < |ops|
  {
    hide After, Suffix;
  }

  lemma NewOrigin(env: Env, depId: string, ops: seq<Op>, d: Dep, e: Dep)
    requires ops != [] && ops[|ops| - 1].DoCollect? && d == After(env, depId, ops, |ops| - 1)
    requires e == Apply(env, d, ops[|ops| - 1]) && e == After(env, depId, ops, |ops|) && |e.raw| > |d.raw|
    ensures HasOrigin(env, depId, ops, e, e.raw[|e.raw| - 1])
  {
    hide After, Suffix;
    assert Origin(env, depId, ops, e, e.raw[|e.raw| - 1], |ops| - 1);
  }

  /** Redacting registers the digests and sizes the rows already had. */
  lemma RedactBooks(env: Env, depId: string, ops: seq<Op>, d: Dep)
    requires ops != [] && !ops[|ops| - 1].DoCollect? && Booked(env, depId, ops[..|ops| - 1], d)
    ensures
      var e := Apply(env, d, ops[|ops| - 1]);
      Booked(env, depId, ops, e) && e.rawZone == d.rawZone && e.raw == d.raw
  {
    hide After, Suffix, RedactFiles, Verifies;
    var n := |ops| - 1;
    var e := Apply(env, d, ops[n]);
    forall k | 0 <= k < |d.raw|
      ensures Observed(d.raw, d.rawZone)[k] == d.raw[k]
    {
      assert HasOrigin(env, depId, ops[..n], d, d.raw[k]);
    }
    assert Observed(d.raw, d.rawZone) == d.raw;
    assert e.raw == d.raw && e.rawZone == d.rawZone;
    forall k | 0 <= k < |e.raw|
      ensures HasOrigin(env, depId, ops, e, e.raw[k])
    {
      assert HasOrigin(env, depId, ops[..n], d, d.raw[k]);
      var j: nat :| Origin(env, depId, ops[..n], d, d.raw[k], j);
      OriginStays(env, depId, ops, n, d, e, d.raw[k], j);
    }
  }

  /** Over every run from a new package: each raw row carries the collector, the media type, the digest and
      the size of the very collection that added its file, whose bytes are still there; and every file has
      exactly one row. */
  lemma {:induction false} RowsAreCollected(env: Env, depId: string, ops: seq<Op>)
    ensures Booked(env, depId, ops, Run(env, MakeDep(depId), ops))
    decreases |ops|
  {
    hide Apply, Origin, Suffix;
    if ops != [] {
      var n := |ops| - 1;
      RowsAreCollected(env, depId, ops[..n]);
      RunLast(env, MakeDep(depId), ops);
      var d := Run(env, MakeDep(depId), ops[..n]);
      if ops[n].DoCollect? {
        CollectBooks(env, depId, ops, d);
      } else {
        RedactBooks(env, depId, ops, d);
      }
    }
  }

  lemma ZoneStep(env: Env, d: Dep, op: Op)
    ensures forall name :: name in d.rawZone ==> name in Apply(env, d, op).rawZone && Apply(env, d, op).rawZone[name] == d.rawZone[name]
  {
    hide Verifies, RedactFiles, Suffix;
  }

  lemma {:induction false} ZoneGrows(env: Env, depId: string, ops: seq<Op>, a: nat, b: nat, name: string)
    requires a <= b <= |ops| && name in After(env, depId, ops, a).rawZone
    ensures name in After(env, depId, ops, b).rawZone
    decreases b - a
  {
    hide Apply, After;
    if a < b {
      AfterNext(env, depId, ops, a);
      ZoneStep(env, After(env, depId, ops, a), ops[a]);
      ZoneGrows(env, depId, ops, a + 1, b, name);
    }
  }

  /** A name is added once. */
  lemma AddedOnce(env: Env, depId: string, ops: seq<Op>, i: nat, j: nat, name: string)
    requires AddedBy(env, depId, ops, i, name) && AddedBy(env, depId, ops, j, name)
    ensures i == j
  {
    hide After;
    if i < j {
      ZoneGrows(env, depId, ops, i + 1, j, name);
    } else if j < i {
      ZoneGrows(env, depId, ops, j + 1, i, name);
    }
  }

  /** The row of a file is the one its collection made. */
  lemma RowOfAdded(env: Env, depId: string, ops: seq<Op>, j: nat, name: string) returns (k: nat)
    requires AddedBy(env, depId, ops, j, name)
    ensures
      var d := Run(env, MakeDep(depId), ops);
      && k < |d.raw| && d.raw[k] == RawRow(name, ops[j].collector, env.detect(Suffix(name), ops[j].bytes), Sha256(ops[j].bytes), |ops[j].bytes|)
      && name in d.rawZone && d.rawZone[name] == ops[j].bytes
  {
    hide After, Suffix, Run, AddedBy;
    var d := Run(env, MakeDep(depId), ops);
    assert d == After(env, depId, ops, |ops|) by { WholeRun(env, depId, ops); }
    assert j < |ops| && name in After(env, depId, ops, j + 1).rawZone by { AddedMeans(env, depId, ops, j, name); }
    ZoneGrows(env, depId, ops, j + 1, |ops|, name);
    RowsAreCollected(env, depId, ops);
    var i :| 0 <= i < |d.raw| && d.raw[i].name == name;
    k := i;
    assert HasOrigin(env, depId, ops, d, d.raw[k]);
    var o: nat :| Origin(env, depId, ops, d, d.raw[k], o);
    AddedOnce(env, depId, ops, o, j, name);
  }

  lemma WholeRun(env: Env, depId: string, ops: seq<Op>)
    ensures Run(env, MakeDep(depId), ops) == After(env, depId, ops, |ops|)
  {
    assert ops[..|ops|] == ops;
  }

  lemma AddedMeans(env: Env, depId: string, ops: seq<Op>, j: nat, name: string)
    requires AddedBy(env, depId, ops, j, name)
    ensures j < |ops| && name in After(env, depId, ops, j + 1).rawZone
  {}

  // ---------------------------------------------------------------- what is never shared

  /** The file's name is blocked for this reason, and no shareable file or row has its name. */
  ghost predicate Withheld(d: Dep, name: string, reason: string) {
    && d.report.Some?
    && (exists k :: 0 <= k < |d.report.value.blocked|
          && d.report.value.blocked[k].file == name && d.report.value.blocked[k].reason == reason)
    && name !in d.shareZone && forall k :: 0 <= k < |d.shareable| ==> d.shareable[k].name != name
  }

  /** A row for a HAR by its collector, its detected type or its name. */
  predicate HarRow(r: RawRow) {
    IsHar(r) || Suffix(r.name) == ".har"
  }

  /** Once there is a report, every HAR is withheld. */
  ghost predicate HarsWithheld(d: Dep) {
    d.report.Some? ==> forall k :: 0 <= k < |d.raw| && HarRow(d.raw[k]) ==> Withheld(d, d.raw[k].name, HAR_REASON)
  }

  lemma RedactWithholds(env: Env, d: Dep, names: seq<string>)
    requires Collecting(d)
    ensures HarsWithheld(Redact(env, d, names))
  {
    hide RedactFiles, RawByName, Partitioned, Withheld, Suffix, IsHar;
    var e := Redact(env, d, names);
    if e.report.Some? {
      Listed(names, d.rawZone);
      RedactPartitions(env, RawByName(d.raw), names, d.rawZone);
      var done := RedactFiles(env, RawByName(d.raw), names, d.rawZone).value;
      assert e == Redone(d, done);
      forall k | 0 <= k < |e.raw| && HarRow(e.raw[k])
        ensures Withheld(e, e.raw[k].name, HAR_REASON)
      {
        HarIsWithheld(env, d, names, done, k);
      }
    }
  }

  lemma HarIsWithheld(env: Env, d: Dep, names: seq<string>, done: Outcome, k: nat)
    requires Collecting(d) && Lists(names, d.rawZone) && k < |d.raw| && HarRow(Observed(d.raw, d.rawZone)[k])
    requires Partitioned(env, RawByName(d.raw), names, d.rawZone, done)
    ensures Withheld(Redone(d, done), d.raw[k].name, HAR_REASON)
  {
    hide RawByName, Suffix, Totals, Partitioned, ShareRows, HAR_REASON, Treat;
    var name, rows := d.raw[k].name, RawByName(d.raw);
    RawByNameIs(d.raw);
    assert HarRow(rows[name]);
    HarIsTreated(env, rows, name, d.rawZone[name]);
    OnlyBlocked(env, rows, names, d.rawZone, done, name);
    SharedNames(done.files);
  }

  lemma HarIsTreated(env: Env, rows: map<string, RawRow>, name: string, bytes: Bytes)
    requires name in rows && rows[name].name == name && HarRow(rows[name])
    ensures Treat(env, rows, name, bytes) == Blocked(BlockedRow(name, HAR_REASON, Sha256(bytes), |bytes|))
  {
    hide Suffix, HAR_REASON;
  }

  lemma SharedNames(files: seq<FileRow>)
    ensures forall i :: 0 <= i < |files| ==> ShareRows(files)[i].name == files[i].output
  {}

  /** A file that is not shared is among those blocked, for the reason it was given, and nowhere else. */
  lemma OnlyBlocked(env: Env, rows: map<string, RawRow>, names: seq<string>, zone: Zone, done: Outcome, name: string)
    requires Lists(names, zone) && Partitioned(env, rows, names, zone, done) && name in zone
    requires Treat(env, rows, name, zone[name]).Blocked?
    ensures name !in done.zone && forall j :: 0 <= j < |done.files| ==> done.files[j].output != name
    ensures exists j :: 0 <= j < |done.blocked| && done.blocked[j].file == name
                        && done.blocked[j] == Treat(env, rows, name, zone[name]).block
  {
    hide Treat, Distinct, DistinctBlocked;
    assert name in Sources(done.files) + BlockedNames(done.blocked);
    forall j | 0 <= j < |done.files|
      ensures done.files[j].source != name && done.files[j].output != name
    {
      assert Made(env, rows, names, zone, done, done.files[j]);
    }
    var j :| 0 <= j < |done.blocked| && done.blocked[j].file == name;
    assert Put(env, rows, names, zone, done.blocked[j]);
  }

  lemma ApplyWithholds(env: Env, d: Dep, op: Op)
    requires CollectingUntilReport(d) && HarsWithheld(d)
    ensures HarsWithheld(Apply(env, d, op))
  {
    hide Redact, Verifies, Suffix, IsHar, Collecting;
    if d.report.Some? {
      ReportFreezes(env, d, op);
      SameWithheld(d, Apply(env, d, op));
    } else if op.DoRedact? {
      RedactWithholds(env, d, op.names);
    }
  }

  lemma SameWithheld(d: Dep, e: Dep)
    requires SameEvidence(d, e) && HarsWithheld(d)
    ensures HarsWithheld(e)
  {
    hide HarRow;
    forall k | 0 <= k < |e.raw| && HarRow(e.raw[k]) && e.report.Some?
      ensures Withheld(e, e.raw[k].name, HAR_REASON)
    {
      assert Withheld(d, d.raw[k].name, HAR_REASON);
    }
  }

  lemma {:induction false} RunWithholds(env: Env, d: Dep, ops: seq<Op>)
    requires CollectingUntilReport(d) && HarsWithheld(d)
    ensures HarsWithheld(Run(env, d, ops))
    decreases |ops|
  {
    hide Apply, CollectingUntilReport, HarsWithheld;
    if ops != [] {
      ApplyCollects(env, d, ops[0]);
      ApplyWithholds(env, d, ops[0]);
      RunWithholds(env, Apply(env, d, ops[0]), ops[1..]);
    }
  }

  /** Over every run from a new package: what the HAR collector brought, under whatever name, and what is a
      HAR by its detected type or its name, is blocked once the package is redacted and never shared; and
      the package never leaves red. */
  lemma HarIsNeverShared(env: Env, depId: string, ops: seq<Op>, j: nat, name: string)
    requires AddedBy(env, depId, ops, j, name)
    requires
      || ops[j].collector == "browser-har"
      || env.detect(Suffix(name), ops[j].bytes) == "application/har+json"
      || Suffix(name) == ".har"
    ensures
      var d := Run(env, MakeDep(depId), ops);
      && d.phase == Red
      && name !in d.shareZone
      && (d.report.Some? ==> Withheld(d, name, "har_requires_dedicated_body_stripping"))
  {
    hide Run, AddedBy, Suffix, Withheld, Associated, ArtifactsOk;
    var d := Run(env, MakeDep(depId), ops);
    var k := RowOfAdded(env, depId, ops, j, name);
    RunCollects(env, MakeDep(depId), ops);
    RunWithholds(env, MakeDep(depId), ops);
    EveryRunIsLawful(env, MakeDep(depId), ops);
    assert HarRow(d.raw[k]);
    if d.report.Some? {
      WithheldMeans(d, name, HAR_REASON);
    }
  }

  lemma WithheldMeans(d: Dep, name: string, reason: string)
    requires Withheld(d, name, reason)
    ensures d.report.Some? && d.report.value.blocked != [] && name !in d.shareZone
  {}

  // ---------------------------------------------------------------- names

  function Lowered(s: string): string {
    seq(|s|, i requires 0 <= i < |s| => Lower(s[i]))
  }

  lemma {:induction false} LastDotIs(stem: string, ext: string)
    requires '.' !in ext
    ensures LastDot(stem + "." + ext) == |stem|
    decreases |ext|
  {
    var n := stem + "." + ext;
    if ext == "" {
      assert n == stem + ".";
    } else {
      assert n[|n| - 1] == ext[|ext| - 1];
      assert n[..|n| - 1] == stem + "." + ext[..|ext| - 1];
      LastDotIs(stem, ext[..|ext| - 1]);
    }
  }

  /** The suffix of a name is what follows its last dot, with the dot and in lower case, if something
      stands before and after it. */
  lemma SuffixIs(stem: string, ext: string)
    requires stem != "" && ext != "" && '.' !in ext
    ensures Suffix(stem + "." + ext) == "." + Lowered(ext)
  {
    hide LastDot;
    LastDotIs(stem, ext);
    var n, r, l := stem + "." + ext, Suffix(stem + "." + ext), "." + Lowered(ext);
    assert |r| == |l|;
    forall i | 0 <= i < |r|
      ensures r[i] == l[i]
    {
      assert r[i] == Lower(n[|stem| + i]);
      if i > 0 {
        assert n[|stem| + i] == ext[i - 1];
      }
    }
  }

  lemma {:induction false} NoDot(n: string)
    requires '.' !in n
    ensures Suffix(n) == ""
  {
    NoDotNoPlace(n);
  }

  lemma {:induction false} NoDotNoPlace(n: string)
    requires '.' !in n
    ensures LastDot(n) == 0
    decreases |n|
  {
    if n != "" {
      NoDotNoPlace(n[..|n| - 1]);
    }
  }
}
