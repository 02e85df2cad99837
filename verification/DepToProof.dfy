/** When a debug evidence package (src/sddgov/evidence.py) gets from red to proof. */
module DepToProof {
  import opened Common
  import opened Operations
  import opened DepLifecycle
  import opened DepProvenance

  // ---------------------------------------------------------------- one transition

  /** The Markdown documents a package must have completed to enter a phase. */
  function Needs(p: Phase): set<string> {
    match p
    case Red => {"reproduction.md"}
    case Evidence => {"reproduction.md"}
    case Fix => {"reproduction.md", "root-cause-hypothesis.md", "fix-scope.md"}
    case Green => {"reproduction.md", "root-cause-hypothesis.md", "fix-scope.md", "regression-evidence.md", "verification.md"}
    case Proof =>
      {"reproduction.md", "root-cause-hypothesis.md", "fix-scope.md", "regression-evidence.md", "verification.md", "rollback.md"}
  }

  lemma DocsIff(d: Dep, p: Phase)
    requires d.report.Some?
    ensures (forall k :: 0 <= k < |RequiredDocs(p)| ==> DocReady(d, RequiredDocs(p)[k])) <==> Needs(p) <= d.docs
  {
    var docs := RequiredDocs(p);
    if forall k :: 0 <= k < |docs| ==> DocReady(d, docs[k]) {
      forall name | name in Needs(p)
        ensures name in d.docs
      {
        assert name in docs;
      }
    }
    assert forall k :: 0 <= k < |docs| ==> docs[k] == "redaction-report.json" || docs[k] in Needs(p);
  }

  /** The evidence is complete and as the report says. */
  ghost predicate Evidenced(env: Env, d: Dep) {
    && d.report.Some? && d.report.value.blocked == [] && d.raw != [] && d.shareable != []
    && Associated(env, d, d.report.value) && ArtifactsOk(env, d)
  }

  lemma SameEvidenced(env: Env, a: Dep, b: Dep)
    requires SameEvidence(a, b)
    ensures Evidenced(env, a) <==> Evidenced(env, b)
  {
    hide Associated, ArtifactsOk;
    SameArtifacts(env, a, b);
    if a.report.Some? {
      SameAssociation(env, a, b, a.report.value);
    }
  }

  /** A package moves exactly one phase on, exactly if its evidence is complete and the documents of that
      phase are. */
  lemma TransitionIff(env: Env, d: Dep, to: Phase)
    requires Lawful(env, d)
    ensures
      var moved := d.(phase := to, history := d.history + [to]);
      && (Index(to) == Index(d.phase) + 1 && Evidenced(env, d) && Needs(to) <= d.docs ==> Transition(env, d, to) == moved)
      && (!(Index(to) == Index(d.phase) + 1 && Evidenced(env, d) && Needs(to) <= d.docs) ==> Transition(env, d, to) == d)
  {
    hide Associated, ArtifactsOk, DocReady;
    var moved := d.(phase := to, history := d.history + [to]);
    SameEvidenced(env, d, moved);
    if Index(to) == Index(d.phase) + 1 {
      assert to != Red;
      ReportRequired(to);
      if moved.report.Some? {
        DocsIff(moved, to);
      } else {
        assert !DocReady(moved, REPORT_DOC) by { NoReport(moved); }
      }
      assert PHASES[..Index(to) + 1] == PHASES[..Index(d.phase) + 1] + [to];
    }
  }

  lemma NoReport(d: Dep)
    requires d.report.None?
    ensures !DocReady(d, REPORT_DOC)
  {}

  function Journey(): seq<Op> {
    [DoTransition(Evidence), DoTransition(Fix), DoTransition(Green), DoTransition(Proof)]
  }

  /** From red, four transitions lead to proof exactly if the evidence and the six documents are complete. */
  lemma JourneyIff(env: Env, d: Dep)
    requires Lawful(env, d) && d.phase == Red
    ensures Run(env, d, Journey()).phase == Proof <==> Evidenced(env, d) && Needs(Proof) <= d.docs
    ensures SameEvidence(d, Run(env, d, Journey()))
  {
    hide Evidenced, Transition, Lawful;
    var d1 := Transition(env, d, Evidence);
    Stage(env, d, Evidence);
    var d2 := Transition(env, d1, Fix);
    Stage(env, d1, Fix);
    var d3 := Transition(env, d2, Green);
    Stage(env, d2, Green);
    var d4 := Transition(env, d3, Proof);
    Stage(env, d3, Proof);
    FourSteps(env, d);
  }

  lemma FourSteps(env: Env, d: Dep)
    ensures Run(env, d, Journey()) ==
              Transition(env, Transition(env, Transition(env, Transition(env, d, Evidence), Fix), Green), Proof)
  {
    hide Transition;
    var d1 := Transition(env, d, Evidence);
    var d2 := Transition(env, d1, Fix);
    var d3 := Transition(env, d2, Green);
    var d4 := Transition(env, d3, Proof);
    var t := Journey();
    assert t[1..] == [DoTransition(Fix), DoTransition(Green), DoTransition(Proof)];
    assert t[1..][1..] == [DoTransition(Green), DoTransition(Proof)];
    assert t[1..][1..][1..] == [DoTransition(Proof)];
    assert t[1..][1..][1..][1..] == [];
    assert Run(env, d3, [DoTransition(Proof)]) == Run(env, d4, []);
    assert Run(env, d2, t[1..][1..]) == Run(env, d3, t[1..][1..][1..]);
    assert Run(env, d1, t[1..]) == Run(env, d2, t[1..][1..]);
  }

  lemma Stage(env: Env, d: Dep, to: Phase)
    requires Lawful(env, d)
    ensures
      var e := Transition(env, d, to);
      && Lawful(env, e) && SameEvidence(d, e) && e.docs == d.docs && (Evidenced(env, e) <==> Evidenced(env, d))
      && e.phase == if Index(to) == Index(d.phase) + 1 && Evidenced(env, d) && Needs(to) <= d.docs then to else d.phase
  {
    hide Evidenced, Verifies, Lawful;
    TransitionIff(env, d, to);
    TransitionKeeps(env, d, to);
    SameEvidenced(env, d, Transition(env, d, to));
  }

  // ---------------------------------------------------------------- collecting

  datatype Collected = Collected(collector: string, name: string, bytes: Bytes)

  function Collects(files: seq<Collected>): (ops: seq<Op>)
    ensures |ops| == |files|
  {
    seq(|files|, k requires 0 <= k < |files| => DoCollect(files[k].collector, files[k].name, files[k].bytes))
  }

  function RowOf(env: Env, f: Collected): RawRow {
    RawRow(f.name, f.collector, env.detect(Suffix(f.name), f.bytes), Sha256(f.bytes), |f.bytes|)
  }

  /** Files as the collectors bring them: known collectors, well-formed names, each once. */
  predicate Collectable(files: seq<Collected>) {
    && (forall k :: 0 <= k < |files| ==> files[k].collector in COLLECTORS && IsName(files[k].name))
    && (forall j, k :: 0 <= j < k < |files| ==> files[j].name != files[k].name)
  }

  /** The package holds exactly these files, each with its row. */
  ghost predicate HoldsFiles(env: Env, d: Dep, files: seq<Collected>) {
    && |d.raw| == |files|
    && (forall k :: 0 <= k < |files| ==>
          d.raw[k] == RowOf(env, files[k]) && files[k].name in d.rawZone && d.rawZone[files[k].name] == files[k].bytes)
    && (forall name :: name in d.rawZone ==> exists k :: 0 <= k < |files| && files[k].name == name)
  }

  lemma {:induction false} CollectsAll(env: Env, depId: string, files: seq<Collected>)
    requires Collectable(files)
    ensures
      var d := Run(env, MakeDep(depId), Collects(files));
      && HoldsFiles(env, d, files) && d.report.None? && d.shareable == [] && d.shareZone == map[] && d.phase == Red
    decreases |files|
  {
    hide Collect, HoldsFiles, Collectable;
    var ops := Collects(files);
    if files == [] {
      HoldsNothing(env, depId);
    } else {
      var n := |files| - 1;
      Earlier(files);
      CollectsAll(env, depId, files[..n]);
      assert ops[..n] == Collects(files[..n]);
      RunLast(env, MakeDep(depId), ops);
      var d := Run(env, MakeDep(depId), ops[..n]);
      CollectNext(env, d, files);
      assert Run(env, MakeDep(depId), ops) == Collect(env, d, files[n].collector, files[n].name, files[n].bytes);
    }
  }

  lemma HoldsNothing(env: Env, depId: string)
    ensures HoldsFiles(env, MakeDep(depId), [])
  {}

  lemma Earlier(files: seq<Collected>)
    requires files != [] && Collectable(files)
    ensures Collectable(files[..|files| - 1])
  {
    hide COLLECTORS;
  }

  /** One file more. */
  lemma CollectNext(env: Env, d: Dep, files: seq<Collected>)
    requires files != [] && Collectable(files) && HoldsFiles(env, d, files[..|files| - 1])
    requires d.report.None? && d.shareable == []
    ensures
      var last := files[|files| - 1];
      var e := Collect(env, d, last.collector, last.name, last.bytes);
      && HoldsFiles(env, e, files)
      && e == d.(raw := e.raw, rawZone := e.rawZone)
  {
    hide HoldsFiles, COLLECTORS, Suffix;
    var last := files[|files| - 1];
    NewName(env, d, files);
    HoldsNext(env, d, Collect(env, d, last.collector, last.name, last.bytes), files);
  }

  lemma HoldsNext(env: Env, d: Dep, e: Dep, files: seq<Collected>)
    requires files != [] && HoldsFiles(env, d, files[..|files| - 1]) && files[|files| - 1].name !in d.rawZone
    requires e.raw == d.raw + [RowOf(env, files[|files| - 1])]
    requires e.rawZone == d.rawZone[files[|files| - 1].name := files[|files| - 1].bytes]
    ensures HoldsFiles(env, e, files)
  {
    hide RowOf;
    var n := |files| - 1;
    forall k | 0 <= k < |files|
      ensures e.raw[k] == RowOf(env, files[k]) && files[k].name in e.rawZone && e.rawZone[files[k].name] == files[k].bytes
    {
      if k < n {
        assert files[..n][k] == files[k];
      }
    }
    forall name | name in e.rawZone
      ensures exists k :: 0 <= k < |files| && files[k].name == name
    {
      if name != files[n].name {
        var k :| 0 <= k < n && files[..n][k].name == name;
        assert files[k].name == name;
      }
    }
  }

  lemma NewName(env: Env, d: Dep, files: seq<Collected>)
    requires files != [] && Collectable(files) && HoldsFiles(env, d, files[..|files| - 1])
    ensures files[|files| - 1].name !in d.rawZone
  {
    hide COLLECTORS, RowOf;
    var n := |files| - 1;
    forall name | name in d.rawZone
      ensures name != files[n].name
    {
      var k :| 0 <= k < n && files[..n][k].name == name;
      assert files[..n][k] == files[k];
    }
  }

  // ---------------------------------------------------------------- redacting

  /** A text file, not a HAR, on which the two redactors agree. */
  predicate Sound(env: Env, f: Collected) {
    && Suffix(f.name) in {".txt", ".log", ".json", ".jsonl", ".yaml", ".yml", ".xml", ".md", ".csv", ".tsv", ".html", ".js", ".ts",
                          ".dart", ".sh"}
    && f.collector != "browser-har" && env.detect(Suffix(f.name), f.bytes) != "application/har+json"
    && Agree(env, f.bytes)
  }

  lemma HoldsRows(env: Env, d: Dep, files: seq<Collected>)
    requires Collectable(files) && HoldsFiles(env, d, files)
    ensures UniqueNames(d.raw)
    ensures forall k :: 0 <= k < |d.raw| ==> IsName(d.raw[k].name) && d.raw[k].name in d.rawZone
    ensures forall name :: name in d.rawZone ==> exists k :: 0 <= k < |d.raw| && d.raw[k].name == name
  {
    hide COLLECTORS, Suffix, IsName;
    assert forall k :: 0 <= k < |d.raw| ==> d.raw[k] == RowOf(env, files[k]) && d.raw[k].name == files[k].name;
    forall name | name in d.rawZone
      ensures exists k :: 0 <= k < |d.raw| && d.raw[k].name == name
    {
      var k :| 0 <= k < |files| && files[k].name == name;
      assert d.raw[k].name == name;
    }
  }

  lemma HoldsIsCollecting(env: Env, d: Dep, files: seq<Collected>)
    requires Collectable(files) && HoldsFiles(env, d, files) && d.report.None? && d.shareable == [] && d.shareZone == map[]
    ensures Collecting(d)
    ensures forall k :: 0 <= k < |files| ==> files[k].name in RawByName(d.raw) && RawByName(d.raw)[files[k].name] == RowOf(env, files[k])
  {
    hide Collectable, Suffix, UniqueNames, IsName, RawByName;
    HoldsRows(env, d, files);
    RawByNameIs(d.raw);
    forall k | 0 <= k < |files|
      ensures files[k].name in RawByName(d.raw) && RawByName(d.raw)[files[k].name] == RowOf(env, files[k])
    {
      assert d.raw[k] == RowOf(env, files[k]);
    }
  }

  /** The file with this number is shared exactly if it is a sound one, where the redactors agree if it is
      shared. */
  lemma SharedIff(env: Env, d: Dep, files: seq<Collected>, k: nat)
    requires Collectable(files) && HoldsFiles(env, d, files) && d.report.None? && d.shareable == [] && d.shareZone == map[] && k < |files|
    ensures
      var name := files[k].name;
      && name in d.rawZone
      && (Sound(env, files[k]) <==> Treat(env, RawByName(d.raw), name, d.rawZone[name]).Shared? && Agree(env, d.rawZone[name]))
  {
    hide Suffix, RawByName;
    HoldsIsCollecting(env, d, files);
    assert ".har" !in TEXT_SUFFIXES;
  }

  lemma AllSoundShared(env: Env, d: Dep, files: seq<Collected>)
    requires Collectable(files) && HoldsFiles(env, d, files) && d.report.None? && d.shareable == [] && d.shareZone == map[]
    requires forall k :: 0 <= k < |files| ==> Sound(env, files[k])
    ensures Agreed(env, d) && NoneAborts(env, d)
    ensures forall name :: name in d.rawZone ==> Treat(env, RawByName(d.raw), name, d.rawZone[name]).Shared?
  {
    hide Treat, Sound, Agree, RawByName;
    forall name | name in d.rawZone
      ensures Treat(env, RawByName(d.raw), name, d.rawZone[name]).Shared? && Agree(env, d.rawZone[name])
    {
      var k :| 0 <= k < |files| && files[k].name == name;
      SharedIff(env, d, files, k);
    }
  }

  /** Redacting a package of sound files makes its evidence complete. */
  lemma SoundIsEvidenced(env: Env, d: Dep, files: seq<Collected>, names: seq<string>)
    requires Counting(env) && Collectable(files) && HoldsFiles(env, d, files) && Lists(names, d.rawZone) && files != []
    requires d.report.None? && d.shareable == [] && d.shareZone == map[]
    requires forall k :: 0 <= k < |files| ==> Sound(env, files[k])
    ensures Evidenced(env, Redact(env, d, names))
  {
    hide RedactFiles, RawByName, Partitioned, AllTreated, Associated, ArtifactsOk, Agreed, NoneAborts, Treat, Sound, Lists, Collecting, HoldsFiles;
    HoldsIsCollecting(env, d, files);
    AllSoundShared(env, d, files);
    RedactedIsAssociated(env, d, names);
    Listed(names, d.rawZone);
    RedactPartitions(env, RawByName(d.raw), names, d.rawZone);
    ListedTreated(env, d, names);
    var done := RedactFiles(env, RawByName(d.raw), names, d.rawZone).value;
    RedactIs(env, d, names);
    NoneBlocked(env, d, names, done);
    SomeRow(env, d, files);
    ArtifactsAfter(env, d, files, names, done);
    assert |ShareRows(done.files)| == |done.files|;
  }

  lemma SomeRow(env: Env, d: Dep, files: seq<Collected>)
    requires HoldsFiles(env, d, files) && files != []
    ensures d.raw != [] && d.rawZone != map[]
  {
    assert files[0].name in d.rawZone;
  }

  lemma NotPut(env: Env, d: Dep, names: seq<string>, block: BlockedRow)
    requires Lists(names, d.rawZone)
    requires forall name :: name in d.rawZone ==> Treat(env, RawByName(d.raw), name, d.rawZone[name]).Shared?
    ensures !Put(env, RawByName(d.raw), names, d.rawZone, block)
  {
    hide Treat, RawByName;
  }

  /** If every file is shared nothing is blocked, and there is a row for each. */
  lemma NoneBlocked(env: Env, d: Dep, names: seq<string>, done: Outcome)
    requires Lists(names, d.rawZone) && Partitioned(env, RawByName(d.raw), names, d.rawZone, done)
    requires forall name :: name in d.rawZone ==> Treat(env, RawByName(d.raw), name, d.rawZone[name]).Shared?
    ensures done.blocked == [] && (d.rawZone != map[] ==> done.files != [])
  {
    hide Treat, RawByName, Distinct, DistinctBlocked, Put;
    if done.blocked != [] {
      NotPut(env, d, names, done.blocked[0]);
    }
    if d.rawZone != map[] {
      var name :| name in d.rawZone;
      assert name in Sources(done.files) + BlockedNames(done.blocked);
    }
  }

  /** The files on disk after redacting are those the rows register. */
  lemma ArtifactsAfter(env: Env, d: Dep, files: seq<Collected>, names: seq<string>, done: Outcome)
    requires Collectable(files) && HoldsFiles(env, d, files) && Lists(names, d.rawZone)
    requires Partitioned(env, RawByName(d.raw), names, d.rawZone, done)
    ensures ArtifactsOk(env, Redone(d, done))
  {
    hide Partitioned, Redone, RawRowOk, ShareRowOk, Collectable, HoldsFiles, Lists, RawByName;
    RawAfter(env, d, files, done);
    ShareAfter(env, d, files, names, done);
  }

  lemma RawAfter(env: Env, d: Dep, files: seq<Collected>, done: Outcome)
    requires Collectable(files) && HoldsFiles(env, d, files)
    ensures
      var e := Redone(d, done);
      && (forall k :: 0 <= k < |e.raw| ==> RawRowOk(env, e, e.raw[k]))
      && (forall j, k :: 0 <= j < k < |e.raw| ==> e.raw[j].name != e.raw[k].name)
      && (forall name :: name in e.rawZone ==> exists k :: 0 <= k < |e.raw| && e.raw[k].name == name)
  {
    hide RawByName, Suffix, Totals, COLLECTORS, ShareRows;
    var e := Redone(d, done);
    forall k | 0 <= k < |e.raw|
      ensures e.raw[k] == d.raw[k] && e.raw[k].name == files[k].name && RawRowOk(env, e, e.raw[k])
    {
      assert d.raw[k] == RowOf(env, files[k]);
    }
    forall name | name in e.rawZone
      ensures exists k :: 0 <= k < |e.raw| && e.raw[k].name == name
    {
      var k :| 0 <= k < |files| && files[k].name == name;
      assert e.raw[k].name == name;
    }
  }

  lemma ShareAfter(env: Env, d: Dep, files: seq<Collected>, names: seq<string>, done: Outcome)
    requires Collectable(files) && HoldsFiles(env, d, files) && Lists(names, d.rawZone)
    requires Partitioned(env, RawByName(d.raw), names, d.rawZone, done)
    ensures
      var e := Redone(d, done);
      && (forall k :: 0 <= k < |e.shareable| ==> ShareRowOk(e, e.shareable[k]))
      && (forall j, k :: 0 <= j < k < |e.shareable| ==> e.shareable[j].name != e.shareable[k].name)
      && (forall name :: name in e.shareZone ==> exists k :: 0 <= k < |e.shareable| && e.shareable[k].name == name)
  {
    hide RawByName, Suffix, Totals, COLLECTORS, Observed, HoldsFiles, Collectable, Lists, ShareRowOk, Made, Put, Treat, Sources, BlockedNames;
    var e := Redone(d, done);
    forall k | 0 <= k < |e.shareable|
      ensures e.shareable[k] == ShareRowOf(done.files[k]) && ShareRowOk(e, e.shareable[k])
    {
      SharedRowOk(env, d, files, names, done, k);
    }
    forall name | name in e.shareZone
      ensures exists k :: 0 <= k < |e.shareable| && e.shareable[k].name == name
    {
      var k :| 0 <= k < |done.files| && done.files[k].output == name;
      assert e.shareable[k].name == name;
    }
  }

  lemma SharedRowOk(env: Env, d: Dep, files: seq<Collected>, names: seq<string>, done: Outcome, k: nat)
    requires Collectable(files) && HoldsFiles(env, d, files) && k < |done.files|
    requires Partitioned(env, RawByName(d.raw), names, d.rawZone, done)
    ensures ShareRowOk(Redone(d, done), ShareRowOf(done.files[k]))
  {
    hide RawByName, Suffix, Totals, COLLECTORS, Sources, Outputs, BlockedNames, Distinct, DistinctBlocked;
    assert Made(env, RawByName(d.raw), names, d.rawZone, done, done.files[k]);
    var j :| 0 <= j < |files| && files[j].name == done.files[k].source;
    assert IsName(files[j].name);
  }

  /** And conversely. */
  lemma EvidencedIsSound(env: Env, d: Dep, files: seq<Collected>, names: seq<string>)
    requires Counting(env) && Collectable(files) && HoldsFiles(env, d, files) && Lists(names, d.rawZone)
    requires d.report.None? && d.shareable == [] && d.shareZone == map[]
    requires Evidenced(env, Redact(env, d, names))
    ensures files != [] && forall k :: 0 <= k < |files| ==> Sound(env, files[k])
  {
    hide RedactFiles, RawByName, Partitioned, AllTreated, Associated, ArtifactsOk, Agreed, NoneAborts, Treat, Sound, Lists, Collecting;
    HoldsIsCollecting(env, d, files);
    RedactedIsAssociated(env, d, names);
    Listed(names, d.rawZone);
    RedactPartitions(env, RawByName(d.raw), names, d.rawZone);
    ListedTreated(env, d, names);
    RedactIs(env, d, names);
    var done := RedactFiles(env, RawByName(d.raw), names, d.rawZone).value;
    assert |Observed(d.raw, d.rawZone)| == |d.raw|;
    forall k | 0 <= k < |files|
      ensures Sound(env, files[k])
    {
      var name := files[k].name;
      AllShared(env, d, names, done, name);
      AgreedAt(env, d, name);
      SharedIff(env, d, files, k);
    }
  }

  lemma AllShared(env: Env, d: Dep, names: seq<string>, done: Outcome, name: string)
    requires Lists(names, d.rawZone) && Partitioned(env, RawByName(d.raw), names, d.rawZone, done) && done.blocked == []
    requires name in d.rawZone
    ensures Treat(env, RawByName(d.raw), name, d.rawZone[name]).Shared?
  {
    hide Treat, RawByName, Distinct, DistinctBlocked, Outputs;
    assert name in Sources(done.files) + BlockedNames(done.blocked);
    var k :| 0 <= k < |done.files| && done.files[k].source == name;
    assert Made(env, RawByName(d.raw), names, d.rawZone, done, done.files[k]);
  }

  lemma AgreedAt(env: Env, d: Dep, name: string)
    requires Agreed(env, d) && name in d.rawZone && Treat(env, RawByName(d.raw), name, d.rawZone[name]).Shared?
    ensures Agree(env, d.rawZone[name])
  {
    hide Treat, Agree, RawByName;
    assert IsShared(env, RawByName(d.raw), name, d.rawZone[name]);
  }

  // ---------------------------------------------------------------- the whole way

  /** Collect the files, complete documents, redact, and advance four times. */
  function WholeWay(files: seq<Collected>, docs: set<string>, names: seq<string>): seq<Op> {
    Collects(files) + [DoEdit(docs), DoRedact(names)] + Journey()
  }

  /** A listing of the files: every name once. */
  predicate ListsFiles(names: seq<string>, files: seq<Collected>) {
    && (forall k :: 0 <= k < |names| ==> exists j :: 0 <= j < |files| && files[j].name == names[k])
    && (forall j :: 0 <= j < |files| ==> files[j].name in names)
    && (forall j, k :: 0 <= j < k < |names| ==> names[j] != names[k])
  }

  /** Files as the nine collectors bring them, each under a plain name of its own. */
  predicate Brought(files: seq<Collected>) {
    && (forall f :: f in files ==>
          && f.collector in {"browser-console", "browser-har", "playwright-trace", "flutter-log", "android-logcat", "supabase-log",
                             "docker-log", "terminal", "git"}
          && f.name !in {"", "."} && '/' !in f.name)
    && forall j, k :: 0 <= j < k < |files| ==> files[j].name != files[k].name
  }

  lemma BroughtIff(files: seq<Collected>)
    ensures Brought(files) <==> Collectable(files)
  {
    assert forall k :: 0 <= k < |files| ==> files[k] in files;
  }

  /** A new package into which files are collected, redacted and then advanced through the four phases ends
      at proof exactly if there are files, all of them text files that are no HARs and on which the two
      redactors agree, and the six documents are complete. */
  lemma ReachesProofIff(env: Env, depId: string, files: seq<Collected>, docs: set<string>, names: seq<string>)
    requires Counting(env) && Brought(files) && ListsFiles(names, files)
    ensures Run(env, MakeDep(depId), WholeWay(files, docs, names)).phase == Proof <==>
            && files != [] && (forall k :: 0 <= k < |files| ==> Sound(env, files[k]))
            && {"reproduction.md", "root-cause-hypothesis.md", "fix-scope.md", "regression-evidence.md", "verification.md", "rollback.md"} <= docs
  {
    hide Run, Apply, Brought, Collectable, HoldsFiles, Sound, Evidenced, Redact, Lawful, Lists, ListsFiles, Counting;
    BroughtIff(files);
    var d := Run(env, MakeDep(depId), Collects(files));
    CollectsAll(env, depId, files);
    var d1 := d.(docs := docs);
    SameFiles(env, d, d1, files);
    NamesList(env, d1, files, names);
    var d2 := Redact(env, d1, names);
    Opening(env, depId, files, docs, names);
    LawfulOpening(env, depId, files, docs, names);
    RedactKeepsRest(env, d1, names);
    JourneyIff(env, d2);
    if Evidenced(env, d2) {
      EvidencedIsSound(env, d1, files, names);
    }
    if files != [] && forall k :: 0 <= k < |files| ==> Sound(env, files[k]) {
      SoundIsEvidenced(env, d1, files, names);
    }
  }

  lemma SameFiles(env: Env, d: Dep, e: Dep, files: seq<Collected>)
    requires HoldsFiles(env, d, files) && e.raw == d.raw && e.rawZone == d.rawZone
    ensures HoldsFiles(env, e, files)
  {}

  lemma NamesList(env: Env, d: Dep, files: seq<Collected>, names: seq<string>)
    requires HoldsFiles(env, d, files) && ListsFiles(names, files)
    ensures Lists(names, d.rawZone)
  {
    hide Suffix;
  }

  lemma RedactKeepsRest(env: Env, d: Dep, names: seq<string>)
    ensures var e := Redact(env, d, names); e.docs == d.docs && e.phase == d.phase
  {
    hide RedactFiles, RawByName;
  }

  lemma Opening(env: Env, depId: string, files: seq<Collected>, docs: set<string>, names: seq<string>)
    ensures
      var d := Run(env, MakeDep(depId), Collects(files));
      Run(env, MakeDep(depId), WholeWay(files, docs, names)) == Run(env, Redact(env, d.(docs := docs), names), Journey())
  {
    hide Redact, Transition, Collect;
    var d := Run(env, MakeDep(depId), Collects(files));
    var two := [DoEdit(docs), DoRedact(names)];
    RunSplits(env, MakeDep(depId), Collects(files) + two, Journey());
    RunSplits(env, MakeDep(depId), Collects(files), two);
    assert two[1..] == [DoRedact(names)] && two[1..][1..] == [];
    var d1 := d.(docs := docs);
    assert Run(env, d1, two[1..]) == Run(env, Redact(env, d1, names), two[1..][1..]);
    assert Run(env, d, two) == Run(env, d1, two[1..]);
  }

  lemma LawfulOpening(env: Env, depId: string, files: seq<Collected>, docs: set<string>, names: seq<string>)
    ensures Lawful(env, Redact(env, Run(env, MakeDep(depId), Collects(files)).(docs := docs), names))
  {
    hide Lawful, Redact, Transition, Collect, Run;
    NewDepIsLawful(env, depId);
    EveryRunIsLawful(env, MakeDep(depId), Collects(files));
    var d := Run(env, MakeDep(depId), Collects(files));
    ApplyKeeps(env, d, DoEdit(docs));
    ApplyKeeps(env, d.(docs := docs), DoRedact(names));
  }
}
