/** A debug evidence package and its lifecycle (src/sddgov/evidence.py): collect raw artifacts,
    redact them once, and move through red, evidence, fix, green, proof, every move gated by a
    verification of the whole package. */
module DepLifecycle {
  import opened Common
  import opened Operations

  // ---------------------------------------------------------------- data

  datatype Phase = Red | Evidence | Fix | Green | Proof

  const PHASES: seq<Phase> := [Red, Evidence, Fix, Green, Proof]

  function Index(p: Phase): (k: nat)
    ensures k < |PHASES| && PHASES[k] == p
  {
    match p case Red => 0 case Evidence => 1 case Fix => 2 case Green => 3 case Proof => 4
  }

  const COLLECTORS: set<string> := {
    "browser-console", "browser-har", "playwright-trace", "flutter-log", "android-logcat", "supabase-log",
    "docker-log", "terminal", "git"}

  const TEXT_SUFFIXES: set<string> := {
    ".txt", ".log", ".json", ".jsonl", ".yaml", ".yml", ".xml", ".md", ".csv", ".tsv", ".html", ".js", ".ts",
    ".dart", ".sh"}

  const HAR_REASON: string := "har_requires_dedicated_body_stripping"

  /** Manifest rows, named within their zone. */
  datatype RawRow = RawRow(name: string, collector: string, media: string, sha: Digest, size: nat)
  datatype ShareRow = ShareRow(name: string, sha: Digest, size: nat)

  datatype FileRow = FileRow(
    source: string, output: string, sourceSha: Digest, sourceSize: nat, outputSha: Digest, outputSize: nat,
    redactions: map<string, nat>)
  datatype BlockedRow = BlockedRow(file: string, reason: string, sha: Digest, size: nat)
  datatype Report = Report(depId: string, files: seq<FileRow>, blocked: seq<BlockedRow>, totals: map<string, nat>)

  type Zone = map<string, Bytes>

  /** `docs` are the Markdown documents whose template has been completed. */
  datatype Dep = Dep(
    depId: string, phase: Phase, history: seq<Phase>,
    raw: seq<RawRow>, shareable: seq<ShareRow>, report: Option<Report>,
    rawZone: Zone, shareZone: Zone, docs: set<string>)

  datatype Redacted = Redacted(text: Bytes, counts: map<string, nat>)

  /** What the streaming redactor makes of a file: a shareable text; a file that is not UTF-8; or an
      error that ends the whole call. */
  datatype Streamed = Written(red: Redacted) | NotText | Aborted

  /** The streaming redactor, which writes; the whole-text redactor, which verifies, and which has no
      answer where the bytes are not UTF-8 or it raises; and the media type detector. */
  datatype Env = Env(stream: Bytes -> Streamed, batch: Bytes -> Option<Redacted>, detect: (string, Bytes) -> string)

  // ---------------------------------------------------------------- names

  predicate IsName(n: string) {
    n != "" && n != "." && '/' !in n
  }

  function Lower(c: char): char {
    if 'A' <= c <= 'Z' then (c as int - 'A' as int + 'a' as int) as char else c
  }

  function LastDot(n: string): nat {
    if n == "" then 0 else if n[|n| - 1] == '.' then |n| - 1 else LastDot(n[..|n| - 1])
  }

  /** Path(n).suffix.lower() */
  function Suffix(n: string): string {
    var k := LastDot(n);
    if 0 < k < |n| - 1 then seq(|n| - k, i requires 0 <= i < |n| - k => Lower(n[k + i])) else ""
  }

  predicate IsHar(r: RawRow) {
    r.collector == "browser-har" || r.media == "application/har+json"
  }

  // ---------------------------------------------------------------- the association of raw and shareable rows

  function RawByName(rows: seq<RawRow>): map<string, RawRow> {
    if rows == [] then map[] else RawByName(rows[..|rows| - 1])[rows[|rows| - 1].name := rows[|rows| - 1]]
  }

  function ShareByName(rows: seq<ShareRow>): map<string, ShareRow> {
    if rows == [] then map[] else ShareByName(rows[..|rows| - 1])[rows[|rows| - 1].name := rows[|rows| - 1]]
  }

  function Count(m: map<string, nat>, rule: string): nat {
    if rule in m then m[rule] else 0
  }

  function Merge(total: map<string, nat>, added: map<string, nat>): map<string, nat> {
    map rule | rule in total.Keys + added.Keys :: Count(total, rule) + Count(added, rule)
  }

  function Totals(files: seq<FileRow>): map<string, nat> {
    if files == [] then map[] else Merge(Totals(files[..|files| - 1]), files[|files| - 1].redactions)
  }

  predicate Tallies(redactions: map<string, nat>) {
    forall rule :: rule in redactions ==> rule != "" && redactions[rule] >= 1
  }

  /** The bytes, where present, are what the whole-text redactor makes of the source, and stay so
      when redacted again. */
  predicate ContentOk(env: Env, d: Dep, row: FileRow) {
    row.output in d.shareZone ==>
      var out := d.shareZone[row.output];
      var again := env.batch(out);
      && again.Some? && again.value.text == out
      && (row.source in d.rawZone ==>
            var first := env.batch(d.rawZone[row.source]);
            first.Some? && first.value.text == out && first.value.counts == row.redactions)
  }

  predicate NamesOk(row: FileRow) {
    IsName(row.source) && IsName(row.output)
  }

  /** One row of the report against the manifest. */
  predicate FileOk(env: Env, d: Dep, row: FileRow) {
    var raws, shares := RawByName(d.raw), ShareByName(d.shareable);
    && NamesOk(row)
    && Suffix(row.source) in TEXT_SUFFIXES && Suffix(row.output) in TEXT_SUFFIXES
    && Suffix(row.source) == Suffix(row.output)
    && row.source in raws && row.output in shares
    && !IsHar(raws[row.source])
    && row.sourceSha == raws[row.source].sha && row.sourceSize == raws[row.source].size
    && row.outputSha == shares[row.output].sha && row.outputSize == shares[row.output].size
    && Tallies(row.redactions)
    && ContentOk(env, d, row)
  }

  predicate BlockedOk(d: Dep, row: BlockedRow) {
    var raws := RawByName(d.raw);
    && IsName(row.file) && !Blank(row.reason)
    && row.file in raws
    && row.sha == raws[row.file].sha && row.size == raws[row.file].size
    && (IsHar(raws[row.file]) ==> row.reason == HAR_REASON)
  }

  function Sources(files: seq<FileRow>): set<string> {
    set k | 0 <= k < |files| :: files[k].source
  }

  function Outputs(files: seq<FileRow>): set<string> {
    set k | 0 <= k < |files| :: files[k].output
  }

  function BlockedNames(rows: seq<BlockedRow>): set<string> {
    set k | 0 <= k < |rows| :: rows[k].file
  }

  predicate Distinct(files: seq<FileRow>) {
    forall j, k :: 0 <= j < k < |files| ==> files[j].source != files[k].source && files[j].output != files[k].output
  }

  predicate DistinctBlocked(rows: seq<BlockedRow>) {
    forall j, k :: 0 <= j < k < |rows| ==> rows[j].file != rows[k].file
  }

  predicate FilesOk(env: Env, d: Dep, files: seq<FileRow>) {
    Distinct(files) && forall k :: 0 <= k < |files| ==> FileOk(env, d, files[k])
  }

  predicate AllBlockedOk(d: Dep, sources: set<string>, rows: seq<BlockedRow>) {
    && DistinctBlocked(rows)
    && forall k :: 0 <= k < |rows| ==> BlockedOk(d, rows[k]) && rows[k].file !in sources
  }

  /** What _verify_redaction_associations accepts: the report's rows pair the raw artifacts that are
      not blocked with the shareable ones, each exactly once, and its totals are theirs. */
  predicate Associated(env: Env, d: Dep, r: Report) {
    && r.depId == d.depId
    && FilesOk(env, d, r.files)
    && AllBlockedOk(d, Sources(r.files), r.blocked)
    && Sources(r.files) + BlockedNames(r.blocked) == RawByName(d.raw).Keys
    && Outputs(r.files) == ShareByName(d.shareable).Keys
    && r.totals == Totals(r.files)
  }

  // ---------------------------------------------------------------- the verifier's loops

  datatype Error =
    | DepIdMismatch | BadNames(row: nat) | Duplicate(row: nat) | NotEligible(row: nat) | Unassociated(row: nat)
    | HarNotBlocked(row: nat) | FieldMismatch(row: nat) | BadRedactions(row: nat) | BadContent(row: nat)
    | BadBlocked(row: nat) | DuplicateBlocked(row: nat) | BlockedMismatch(row: nat)
    | NotCovered | OutputsNotCovered | TotalsMismatch

  /** The checks on a row whose names are well formed and new; each failure is reported. */
  function FileErrors(env: Env, d: Dep, row: FileRow, k: nat): seq<Error> {
    var raws, shares := RawByName(d.raw), ShareByName(d.shareable);
    (if Suffix(row.source) in TEXT_SUFFIXES && Suffix(row.output) in TEXT_SUFFIXES
        && Suffix(row.source) == Suffix(row.output) then [] else [NotEligible(k)])
    + (if row.source !in raws || row.output !in shares then [Unassociated(k)] else
         (if IsHar(raws[row.source]) then [HarNotBlocked(k)] else [])
         + (if row.sourceSha == raws[row.source].sha && row.sourceSize == raws[row.source].size
               && row.outputSha == shares[row.output].sha && row.outputSize == shares[row.output].size
            then [] else [FieldMismatch(k)])
         + (if Tallies(row.redactions) then [] else [BadRedactions(k)])
         + (if ContentOk(env, d, row) then [] else [BadContent(k)]))
  }

  function BlockedErrors(d: Dep, row: BlockedRow, k: nat): seq<Error> {
    var raws := RawByName(d.raw);
    if row.file !in raws || row.sha != raws[row.file].sha || row.size != raws[row.file].size
       || (IsHar(raws[row.file]) && row.reason != HAR_REASON)
    then [BlockedMismatch(k)] else []
  }

  lemma FileErrorsExact(env: Env, d: Dep, row: FileRow, k: nat)
    requires NamesOk(row)
    ensures FileErrors(env, d, row, k) == [] <==> FileOk(env, d, row)
  {
    hide ContentOk, Suffix, RawByName, ShareByName;
  }

  lemma SourcesNext(files: seq<FileRow>, i: nat)
    requires i < |files|
    ensures Sources(files[..i + 1]) == Sources(files[..i]) + {files[i].source}
    ensures Outputs(files[..i + 1]) == Outputs(files[..i]) + {files[i].output}
  {
    var before, after := files[..i], files[..i + 1];
    assert after[i] == files[i];
    assert forall k :: 0 <= k < i ==> after[k] == before[k];
    forall s | s in Sources(after) ensures s in Sources(before) + {files[i].source} {
      var k :| 0 <= k < |after| && after[k].source == s;
      assert k < i ==> before[k].source == s;
    }
    forall s | s in Sources(before) ensures s in Sources(after) {
      var k :| 0 <= k < |before| && before[k].source == s;
      assert after[k].source == s;
    }
    forall s | s in Outputs(after) ensures s in Outputs(before) + {files[i].output} {
      var k :| 0 <= k < |after| && after[k].output == s;
      assert k < i ==> before[k].output == s;
    }
    forall s | s in Outputs(before) ensures s in Outputs(after) {
      var k :| 0 <= k < |before| && before[k].output == s;
      assert after[k].output == s;
    }
  }

  lemma FilesOkNext(env: Env, d: Dep, files: seq<FileRow>, i: nat)
    requires i < |files|
    ensures FilesOk(env, d, files[..i + 1]) <==>
            && FilesOk(env, d, files[..i]) && FileOk(env, d, files[i])
            && files[i].source !in Sources(files[..i]) && files[i].output !in Outputs(files[..i])
  {
    hide FileOk;
    var before, after := files[..i], files[..i + 1];
    assert after == before + [files[i]];
    if FilesOk(env, d, after) {
      forall k | 0 <= k < i ensures FileOk(env, d, before[k]) { assert before[k] == after[k]; }
      assert FileOk(env, d, after[i]);
    }
  }

  /** The first loop of _verify_redaction_associations */
  method VerifyFiles(env: Env, d: Dep, files: seq<FileRow>)
    returns (errors: seq<Error>, sources: set<string>, outputs: set<string>, totals: map<string, nat>)
    ensures errors == [] <==> FilesOk(env, d, files)
    ensures errors == [] ==> sources == Sources(files) && outputs == Outputs(files) && totals == Totals(files)
  {
    hide FileOk, FileErrors, Sources, Outputs, FilesOk, Merge;
    errors, sources, outputs, totals := [], {}, {}, map[];
    var i := 0;
    assert files[..0] == [] && FilesOk(env, d, []) && Sources([]) == {} && Outputs([]) == {} by { NoFiles(env, d); }
    while i < |files|
      invariant 0 <= i <= |files|
      invariant errors == [] <==> FilesOk(env, d, files[..i])
      invariant errors == [] ==>
        sources == Sources(files[..i]) && outputs == Outputs(files[..i]) && totals == Totals(files[..i])
    {
      var row := files[i];
      FilesOkNext(env, d, files, i);
      SourcesNext(files, i);
      assert files[..i + 1][..i] == files[..i];
      if !NamesOk(row) {
        assert !FileOk(env, d, row) by { NamesFirst(env, d, row); }
        errors := errors + [BadNames(i)];
      } else if row.source in sources || row.output in outputs {
        errors := errors + [Duplicate(i)];
      } else {
        FileErrorsExact(env, d, row, i);
        sources, outputs := sources + {row.source}, outputs + {row.output};
        if Tallies(row.redactions) {
          totals := Merge(totals, row.redactions);
        } else {
          assert !FileOk(env, d, row) by { TalliesNeeded(env, d, row); }
        }
        errors := errors + FileErrors(env, d, row, i);
      }
      i := i + 1;
    }
    assert files[..i] == files;
  }

  lemma NoFiles(env: Env, d: Dep)
    ensures FilesOk(env, d, []) && Sources([]) == {} && Outputs([]) == {}
  {}

  lemma NamesFirst(env: Env, d: Dep, row: FileRow)
    ensures FileOk(env, d, row) ==> NamesOk(row)
  {
    hide ContentOk, Suffix, RawByName, ShareByName;
  }

  lemma TalliesNeeded(env: Env, d: Dep, row: FileRow)
    ensures FileOk(env, d, row) ==> Tallies(row.redactions)
  {
    hide ContentOk, Suffix, RawByName, ShareByName;
  }

  lemma BlockedNext(d: Dep, sources: set<string>, rows: seq<BlockedRow>, i: nat)
    requires i < |rows|
    ensures BlockedNames(rows[..i + 1]) == BlockedNames(rows[..i]) + {rows[i].file}
    ensures AllBlockedOk(d, sources, rows[..i + 1]) <==>
            && AllBlockedOk(d, sources, rows[..i]) && BlockedOk(d, rows[i])
            && rows[i].file !in sources && rows[i].file !in BlockedNames(rows[..i])
  {
    hide BlockedOk;
    var before, after := rows[..i], rows[..i + 1];
    assert after == before + [rows[i]];
    forall s | s in BlockedNames(after) ensures s in BlockedNames(before) + {rows[i].file} {
      var k :| 0 <= k < |after| && after[k].file == s;
      assert k < i ==> before[k].file == s;
    }
    forall s | s in BlockedNames(before) ensures s in BlockedNames(after) {
      var k :| 0 <= k < |before| && before[k].file == s;
      assert after[k].file == s;
    }
    assert after[i] == rows[i];
    if AllBlockedOk(d, sources, after) {
      forall k | 0 <= k < i ensures BlockedOk(d, before[k]) && before[k].file !in sources { assert before[k] == after[k]; }
      assert BlockedOk(d, after[i]) && after[i].file !in sources;
    }
  }

  /** The second loop */
  method VerifyBlocked(d: Dep, sources: set<string>, rows: seq<BlockedRow>)
    returns (errors: seq<Error>, blocked: set<string>)
    ensures errors == [] <==> AllBlockedOk(d, sources, rows)
    ensures errors == [] ==> blocked == BlockedNames(rows)
  {
    hide AllBlockedOk, BlockedNames, RawByName;
    errors, blocked := [], {};
    var i := 0;
    assert rows[..0] == [] && AllBlockedOk(d, sources, []) && BlockedNames([]) == {} by { NoBlocked(d, sources); }
    while i < |rows|
      invariant 0 <= i <= |rows|
      invariant errors == [] <==> AllBlockedOk(d, sources, rows[..i])
      invariant errors == [] ==> blocked == BlockedNames(rows[..i])
    {
      var row := rows[i];
      BlockedNext(d, sources, rows, i);
      if !IsName(row.file) || Blank(row.reason) {
        errors := errors + [BadBlocked(i)];
      } else if row.file in sources || row.file in blocked {
        errors := errors + [DuplicateBlocked(i)];
      } else {
        blocked := blocked + {row.file};
        errors := errors + BlockedErrors(d, row, i);
      }
      i := i + 1;
    }
    assert rows[..i] == rows;
  }

  lemma NoBlocked(d: Dep, sources: set<string>)
    ensures AllBlockedOk(d, sources, []) && BlockedNames([]) == {}
  {}

  /** _verify_redaction_associations: the error list is empty exactly when the report is associated
      with the manifest. */
  method VerifyRedactionAssociations(env: Env, d: Dep, r: Report) returns (errors: seq<Error>)
    ensures errors == [] <==> Associated(env, d, r)
  {
    hide FilesOk, AllBlockedOk, Sources, Outputs, BlockedNames, RawByName, ShareByName, Totals;
    errors := if r.depId == d.depId then [] else [DepIdMismatch];
    var fileErrors, sources, outputs, totals := VerifyFiles(env, d, r.files);
    errors := errors + fileErrors;
    var blockedErrors, blocked := VerifyBlocked(d, sources, r.blocked);
    errors := errors + blockedErrors;
    if sources + blocked != RawByName(d.raw).Keys {
      errors := errors + [NotCovered];
    }
    if outputs != ShareByName(d.shareable).Keys {
      errors := errors + [OutputsNotCovered];
    }
    if r.totals != totals {
      errors := errors + [TotalsMismatch];
    }
  }

  // ---------------------------------------------------------------- what association means

  function SumOf(files: seq<FileRow>, rule: string): nat {
    if files == [] then 0 else SumOf(files[..|files| - 1], rule) + Count(files[|files| - 1].redactions, rule)
  }

  /** The totals are the per-rule sums over the rows, with no rule that no row mentions. */
  lemma {:induction false} TotalsAreSums(files: seq<FileRow>, rule: string)
    ensures Count(Totals(files), rule) == SumOf(files, rule)
    ensures rule in Totals(files) <==> exists k :: 0 <= k < |files| && rule in files[k].redactions
    decreases |files|
  {
    if files != [] {
      var n := |files| - 1;
      TotalsAreSums(files[..n], rule);
      if rule in files[n].redactions {
        assert rule in Totals(files);
      } else if rule in Totals(files) {
        var k :| 0 <= k < n && rule in files[..n][k].redactions;
        assert rule in files[k].redactions;
      }
      if k :| 0 <= k < |files| && rule in files[k].redactions {
        assert k < n ==> rule in files[..n][k].redactions;
      }
    }
  }

  lemma OneSource(files: seq<FileRow>, name: string)
    requires Distinct(files) && name in Sources(files)
    ensures exists k :: 0 <= k < |files| && Pairs(files, k, name)
  {
    var k :| 0 <= k < |files| && files[k].source == name;
    assert Pairs(files, k, name);
  }

  lemma OneOutput(files: seq<FileRow>, name: string)
    requires Distinct(files) && name in Outputs(files)
    ensures exists k :: 0 <= k < |files| && Yields(files, k, name)
  {
    var k :| 0 <= k < |files| && files[k].output == name;
    assert Yields(files, k, name);
  }

  /** With nothing blocked, the rows pair every raw artifact with exactly one shareable artifact
      and the other way round, and mention nothing else. */
  lemma OneToOne(env: Env, d: Dep, r: Report)
    requires Associated(env, d, r) && r.blocked == []
    ensures forall name :: name in RawByName(d.raw) ==> exists k :: 0 <= k < |r.files| && Pairs(r.files, k, name)
    ensures forall name :: name in ShareByName(d.shareable) ==> exists k :: 0 <= k < |r.files| && Yields(r.files, k, name)
    ensures Sources(r.files) == RawByName(d.raw).Keys && Outputs(r.files) == ShareByName(d.shareable).Keys
  {
    hide FileOk, RawByName, ShareByName, Totals, Sources, Outputs, AllBlockedOk, Distinct, Pairs, Yields;
    assert Sources(r.files) + {} == Sources(r.files) && BlockedNames([]) == {};
    forall name | name in RawByName(d.raw) ensures exists k :: 0 <= k < |r.files| && Pairs(r.files, k, name) {
      OneSource(r.files, name);
    }
    forall name | name in ShareByName(d.shareable) ensures exists k :: 0 <= k < |r.files| && Yields(r.files, k, name) {
      OneOutput(r.files, name);
    }
  }

  /** Each row names two plain files, and counts every rule it names at least once. */
  lemma RowsAreWhole(env: Env, d: Dep, r: Report, k: nat)
    requires Associated(env, d, r) && k < |r.files|
    ensures
      var row := r.files[k];
      && row.source !in {"", "."} && '/' !in row.source && row.output !in {"", "."} && '/' !in row.output
      && forall rule :: rule in row.redactions ==> rule != "" && row.redactions[rule] >= 1
  {
    hide ContentOk, Suffix, RawByName, ShareByName, Totals, Sources, Outputs, Distinct, AllBlockedOk;
    assert FileOk(env, d, r.files[k]);
  }

  /** Row k and no other has this source. */
  ghost predicate Pairs(files: seq<FileRow>, k: nat, name: string)
    requires k < |files|
  {
    files[k].source == name && forall j :: 0 <= j < |files| && files[j].source == name ==> j == k
  }

  ghost predicate Yields(files: seq<FileRow>, k: nat, name: string)
    requires k < |files|
  {
    files[k].output == name && forall j :: 0 <= j < |files| && files[j].output == name ==> j == k
  }

  // ---------------------------------------------------------------- artifacts on disk

  predicate RawRowOk(env: Env, d: Dep, row: RawRow) {
    && row.collector in COLLECTORS && IsName(row.name)
    && row.name in d.rawZone
    && |d.rawZone[row.name]| == row.size && Sha256(d.rawZone[row.name]) == row.sha
    && row.media == env.detect(Suffix(row.name), d.rawZone[row.name])
  }

  predicate ShareRowOk(d: Dep, row: ShareRow) {
    && IsName(row.name) && row.name in d.shareZone
    && |d.shareZone[row.name]| == row.size && Sha256(d.shareZone[row.name]) == row.sha
  }

  /** _verify_manifest_artifacts: every row is on disk as registered, no path twice, nothing else. */
  ghost predicate ArtifactsOk(env: Env, d: Dep) {
    && (forall k :: 0 <= k < |d.raw| ==> RawRowOk(env, d, d.raw[k]))
    && (forall j, k :: 0 <= j < k < |d.raw| ==> d.raw[j].name != d.raw[k].name)
    && (forall name :: name in d.rawZone ==> exists k :: 0 <= k < |d.raw| && d.raw[k].name == name)
    && (forall k :: 0 <= k < |d.shareable| ==> ShareRowOk(d, d.shareable[k]))
    && (forall j, k :: 0 <= j < k < |d.shareable| ==> d.shareable[j].name != d.shareable[k].name)
    && (forall name :: name in d.shareZone ==> exists k :: 0 <= k < |d.shareable| && d.shareable[k].name == name)
  }

  // ---------------------------------------------------------------- operations

  const REPORT_DOC: string := "redaction-report.json"

  function RequiredDocs(p: Phase): seq<string> {
    match p
    case Red => ["reproduction.md"]
    case Evidence => ["reproduction.md", REPORT_DOC]
    case Fix => ["reproduction.md", "root-cause-hypothesis.md", "fix-scope.md", REPORT_DOC]
    case Green =>
      ["reproduction.md", "root-cause-hypothesis.md", "fix-scope.md", "regression-evidence.md", "verification.md", REPORT_DOC]
    case Proof =>
      ["reproduction.md", "root-cause-hypothesis.md", "fix-scope.md", "regression-evidence.md", "verification.md",
       "rollback.md", REPORT_DOC]
  }

  predicate DocReady(d: Dep, name: string) {
    if name == REPORT_DOC then d.report.Some? else name in d.docs
  }

  /** _verify_open, not strict, on the package as it would be */
  ghost predicate Verifies(env: Env, d: Dep) {
    && d.history == PHASES[..Index(d.phase) + 1]
    && (forall k :: 0 <= k < |RequiredDocs(d.phase)| ==> DocReady(d, RequiredDocs(d.phase)[k]))
    && (d.phase != Red ==>
          && d.raw != []
          && (d.report.Some? ==>
                d.report.value.blocked == [] && d.shareable != [] && Associated(env, d, d.report.value))
          && ArtifactsOk(env, d))
  }

  function MakeDep(depId: string): Dep {
    Dep(depId, Red, [Red], [], [], None, map[], map[], {})
  }

  /** collect: closed once there is a report or a shareable row. */
  function Collect(env: Env, d: Dep, collector: string, name: string, bytes: Bytes): Dep {
    if collector !in COLLECTORS || d.report.Some? || d.shareable != [] || !IsName(name) || name in d.rawZone then d
    else d.(rawZone := d.rawZone[name := bytes],
            raw := d.raw + [RawRow(name, collector, env.detect(Suffix(name), bytes), Sha256(bytes), |bytes|)])
  }

  /** What redact makes of one raw file: a shareable file, a blocked row with a reason, or the end
      of the call. */
  datatype Treated = Shared(row: FileRow, out: Bytes) | Blocked(block: BlockedRow) | Refused

  function Treat(env: Env, rows: map<string, RawRow>, name: string, bytes: Bytes): Treated {
    var sha, size := Sha256(bytes), |bytes|;
    if (name in rows && IsHar(rows[name])) || Suffix(name) == ".har" then Blocked(BlockedRow(name, HAR_REASON, sha, size))
    else if Suffix(name) !in TEXT_SUFFIXES
    then Blocked(BlockedRow(name, "binary_requires_manual_visual_redaction", sha, size))
    else match env.stream(bytes)
      case Aborted => Refused
      case NotText => Blocked(BlockedRow(name, "non_utf8_requires_manual_review", sha, size))
      case Written(red) => Shared(FileRow(name, name, sha, size, Sha256(red.text), |red.text|, red.counts), red.text)
  }

  datatype Outcome = Outcome(files: seq<FileRow>, blocked: seq<BlockedRow>, zone: Zone)

  /** redact_files over the raw files in the order given; an error takes back what was written */
  function RedactFiles(env: Env, rows: map<string, RawRow>, names: seq<string>, zone: Zone): Option<Outcome>
    requires forall k :: 0 <= k < |names| ==> names[k] in zone
  {
    if names == [] then Some(Outcome([], [], map[])) else
      var name := names[|names| - 1];
      var before := RedactFiles(env, rows, names[..|names| - 1], zone);
      if before.None? then None else
        match Treat(env, rows, name, zone[name])
        case Shared(row, out) =>
          Some(Outcome(before.value.files + [row], before.value.blocked, before.value.zone[name := out]))
        case Blocked(block) => Some(before.value.(blocked := before.value.blocked + [block]))
        case Refused => None
  }

  predicate UniqueNames(rows: seq<RawRow>) {
    forall j, k :: 0 <= j < k < |rows| ==> rows[j].name != rows[k].name
  }

  /** A listing of a directory: every name once. */
  predicate Lists(names: seq<string>, zone: Zone) {
    && (forall k :: 0 <= k < |names| ==> names[k] in zone)
    && (forall name :: name in zone ==> name in names)
    && (forall j, k :: 0 <= j < k < |names| ==> names[j] != names[k])
  }

  function ShareRowOf(row: FileRow): ShareRow {
    ShareRow(row.output, row.outputSha, row.outputSize)
  }

  function ShareRows(files: seq<FileRow>): (rows: seq<ShareRow>)
    ensures |rows| == |files|
  {
    seq(|files|, k requires 0 <= k < |files| => ShareRowOf(files[k]))
  }

  /** redact: once only, into an empty shareable zone, covering every raw row. `names` is the
      directory listing of the raw zone. */
  function Redact(env: Env, d: Dep, names: seq<string>): Dep {
    if d.report.Some? || d.shareZone != map[] || !UniqueNames(d.raw) || !Lists(names, d.rawZone)
       || exists k :: 0 <= k < |d.raw| && d.raw[k].name !in d.rawZone
    then d
    else
      var done := RedactFiles(env, RawByName(d.raw), names, d.rawZone);
      if done.None? then d else Redone(d, done.value)
  }

  function Redone(d: Dep, done: Outcome): Dep {
    d.(report := Some(Report(d.depId, done.files, done.blocked, Totals(done.files))),
       shareable := ShareRows(done.files), shareZone := done.zone, raw := Observed(d.raw, d.rawZone))
  }

  /** Registered digests and sizes are replaced by those observed while redacting. */
  function Observed(rows: seq<RawRow>, zone: Zone): (r: seq<RawRow>)
    ensures |r| == |rows|
  {
    seq(|rows|, k requires 0 <= k < |rows| =>
      if rows[k].name in zone then rows[k].(sha := Sha256(zone[rows[k].name]), size := |zone[rows[k].name]|) else rows[k])
  }

  /** transition: exactly one phase on, if the package would verify there. */
  ghost function Transition(env: Env, d: Dep, to: Phase): Dep {
    var moved := d.(phase := to, history := d.history + [to]);
    if Index(to) != Index(d.phase) + 1 || !Verifies(env, moved) then d else moved
  }

  /** Completing or spoiling a Markdown document. */
  function EditDocs(d: Dep, docs: set<string>): Dep {
    d.(docs := docs)
  }

  // ---------------------------------------------------------------- whole runs

  datatype Op =
    | DoCollect(collector: string, name: string, bytes: Bytes)
    | DoRedact(names: seq<string>)
    | DoTransition(to: Phase)
    | DoEdit(docs: set<string>)

  ghost function Apply(env: Env, d: Dep, op: Op): Dep {
    match op
    case DoCollect(collector, name, bytes) => Collect(env, d, collector, name, bytes)
    case DoRedact(names) => Redact(env, d, names)
    case DoTransition(to) => Transition(env, d, to)
    case DoEdit(docs) => EditDocs(d, docs)
  }

  ghost function Run(env: Env, d: Dep, ops: seq<Op>): Dep
    decreases |ops|
  {
    if ops == [] then d else Run(env, Apply(env, d, ops[0]), ops[1..])
  }

  /** The evidence of a package: everything its phases are about. */
  predicate SameEvidence(a: Dep, b: Dep) {
    && a.depId == b.depId && a.raw == b.raw && a.shareable == b.shareable && a.report == b.report
    && a.rawZone == b.rawZone && a.shareZone == b.shareZone
  }

  /** What holds of every package a run can reach. */
  ghost predicate Lawful(env: Env, d: Dep) {
    && d.history == PHASES[..Index(d.phase) + 1]
    && (d.phase != Red ==>
          && d.report.Some? && d.report.value.blocked == []
          && d.raw != [] && d.shareable != []
          && Associated(env, d, d.report.value) && ArtifactsOk(env, d))
  }

  lemma SameAssociation(env: Env, a: Dep, b: Dep, r: Report)
    requires SameEvidence(a, b)
    ensures Associated(env, a, r) <==> Associated(env, b, r)
  {
    hide RawByName, ShareByName, Suffix, Totals, Sources, Outputs, BlockedNames, Distinct, DistinctBlocked;
    forall row: FileRow ensures FileOk(env, a, row) <==> FileOk(env, b, row) {
      SameFileOk(env, a, b, row);
    }
    forall row: BlockedRow ensures BlockedOk(a, row) <==> BlockedOk(b, row) {}
  }

  lemma SameFileOk(env: Env, a: Dep, b: Dep, row: FileRow)
    requires SameEvidence(a, b)
    ensures FileOk(env, a, row) <==> FileOk(env, b, row)
  {
    hide RawByName, ShareByName, Suffix;
  }

  lemma SameArtifacts(env: Env, a: Dep, b: Dep)
    requires SameEvidence(a, b)
    ensures ArtifactsOk(env, a) <==> ArtifactsOk(env, b)
  {
    hide Suffix;
    forall row: RawRow ensures RawRowOk(env, a, row) <==> RawRowOk(env, b, row) {}
    forall row: ShareRow ensures ShareRowOk(a, row) <==> ShareRowOk(b, row) {}
  }

  /** Once there is a report, the evidence never changes again. */
  lemma ReportFreezes(env: Env, d: Dep, op: Op)
    requires d.report.Some?
    ensures SameEvidence(d, Apply(env, d, op))
  {
    hide Verifies, RedactFiles;
  }

  lemma ApplyKeeps(env: Env, d: Dep, op: Op)
    requires Lawful(env, d)
    ensures Lawful(env, Apply(env, d, op))
  {
    hide Associated, ArtifactsOk, RedactFiles, Suffix;
    var e := Apply(env, d, op);
    if op.DoTransition? {
      TransitionKeeps(env, d, op.to);
    } else if d.phase != Red {
      ReportFreezes(env, d, op);
      SameAssociation(env, d, e, d.report.value);
      SameArtifacts(env, d, e);
    }
  }

  lemma TransitionKeeps(env: Env, d: Dep, to: Phase)
    requires Lawful(env, d)
    ensures Lawful(env, Transition(env, d, to))
  {
    hide Associated, ArtifactsOk;
    var moved := d.(phase := to, history := d.history + [to]);
    if Index(to) == Index(d.phase) + 1 && Verifies(env, moved) {
      ReportRequired(to);
    }
  }

  /** Every phase after red requires the redaction report. */
  lemma ReportRequired(p: Phase)
    ensures p != Red ==> RequiredDocs(p)[|RequiredDocs(p)| - 1] == REPORT_DOC
  {}

  /** Over every run from a new package: the history is the exact prefix of the five phases; and past
      red the report pairs raw with shareable rows, blocks nothing, and the files are as registered. */
  lemma {:induction false} EveryRunIsLawful(env: Env, d: Dep, ops: seq<Op>)
    requires Lawful(env, d)
    ensures Lawful(env, Run(env, d, ops))
    decreases |ops|
  {
    hide Lawful, Apply;
    if ops != [] {
      ApplyKeeps(env, d, ops[0]);
      EveryRunIsLawful(env, Apply(env, d, ops[0]), ops[1..]);
    }
  }

  lemma NewDepIsLawful(env: Env, depId: string)
    ensures Lawful(env, MakeDep(depId))
  {}

  /** Past red the raw and shareable rows, the report and both zones are frozen for the rest of
      every run. */
  lemma {:induction false} PastRedIsFrozen(env: Env, d: Dep, ops: seq<Op>)
    requires d.report.Some?
    ensures SameEvidence(d, Run(env, d, ops))
    decreases |ops|
  {
    hide Apply;
    if ops != [] {
      ReportFreezes(env, d, ops[0]);
      PastRedIsFrozen(env, Apply(env, d, ops[0]), ops[1..]);
    }
  }

  /** A package whose report blocks an artifact never leaves red. */
  lemma {:induction false} BlockedStaysRed(env: Env, d: Dep, ops: seq<Op>)
    requires Lawful(env, d) && d.report.Some? && d.report.value.blocked != []
    ensures Run(env, d, ops).phase == Red
    decreases |ops|
  {
    hide Apply;
    if ops != [] {
      ApplyKeeps(env, d, ops[0]);
      ReportFreezes(env, d, ops[0]);
      BlockedStaysRed(env, Apply(env, d, ops[0]), ops[1..]);
    }
  }

  // ---------------------------------------------------------------- what redact writes, verify accepts

  /** The two redactors make the same of a raw text, and redacting the result again changes nothing. */
  predicate Agree(env: Env, raw: Bytes) {
    && env.stream(raw).Written?
    && env.batch(raw) == Some(env.stream(raw).red)
    && var out := env.stream(raw).red.text;
       env.batch(out).Some? && env.batch(out).value.text == out
  }

  /** Counts are positive and named. */
  ghost predicate Counting(env: Env) {
    forall b: Bytes {:trigger env.stream(b)} :: env.stream(b).Written? ==> Tallies(env.stream(b).red.counts)
  }

  /** A file row is what redact makes of a listed file, and its output is on disk. */
  predicate Made(env: Env, rows: map<string, RawRow>, names: seq<string>, zone: Zone, done: Outcome, row: FileRow) {
    && row.source == row.output && row.source in names && row.source in zone && row.output in done.zone
    && Treat(env, rows, row.source, zone[row.source]) == Shared(row, done.zone[row.output])
  }

  predicate Put(env: Env, rows: map<string, RawRow>, names: seq<string>, zone: Zone, row: BlockedRow) {
    row.file in names && row.file in zone && Treat(env, rows, row.file, zone[row.file]) == Blocked(row)
  }

  ghost predicate Partitioned(env: Env, rows: map<string, RawRow>, names: seq<string>, zone: Zone, done: Outcome) {
    && (forall k :: 0 <= k < |done.files| ==> Made(env, rows, names, zone, done, done.files[k]))
    && (forall k :: 0 <= k < |done.blocked| ==> Put(env, rows, names, zone, done.blocked[k]))
    && Distinct(done.files) && DistinctBlocked(done.blocked)
    && Sources(done.files) !! BlockedNames(done.blocked)
    && Sources(done.files) + BlockedNames(done.blocked) == (set name | name in names)
    && done.zone.Keys == Sources(done.files) == Outputs(done.files)
  }

  lemma TreatNames(env: Env, rows: map<string, RawRow>, name: string, bytes: Bytes)
    ensures match Treat(env, rows, name, bytes)
            case Shared(row, out) => row.source == name && row.output == name
            case Blocked(block) => block.file == name
            case Refused => true
  {
    hide Suffix;
  }

  /** The files redact shares: text by name, written by the stream. */
  predicate IsShared(env: Env, rows: map<string, RawRow>, name: string, bytes: Bytes) {
    Treat(env, rows, name, bytes).Shared?
  }

  predicate AllTreated(env: Env, rows: map<string, RawRow>, names: seq<string>, zone: Zone)
    requires forall k :: 0 <= k < |names| ==> names[k] in zone
  {
    forall k :: 0 <= k < |names| ==> !Treat(env, rows, names[k], zone[names[k]]).Refused?
  }

  lemma {:induction false} RedactPartitions(env: Env, rows: map<string, RawRow>, names: seq<string>, zone: Zone)
    requires forall k :: 0 <= k < |names| ==> names[k] in zone
    requires forall j, k :: 0 <= j < k < |names| ==> names[j] != names[k]
    ensures RedactFiles(env, rows, names, zone).Some? <==> AllTreated(env, rows, names, zone)
    ensures RedactFiles(env, rows, names, zone).Some? ==>
              Partitioned(env, rows, names, zone, RedactFiles(env, rows, names, zone).value)
    decreases |names|
  {
    hide Treat, Partitioned;
    if names == [] {
      NothingPartitioned(env, rows, zone);
    } else {
      var n := |names| - 1;
      var before := RedactFiles(env, rows, names[..n], zone);
      RedactPartitions(env, rows, names[..n], zone);
      TreatedNext(env, rows, names, zone);
      TreatNames(env, rows, names[n], zone[names[n]]);
      if before.Some? {
        match Treat(env, rows, names[n], zone[names[n]])
        case Shared(row, out) => PartitionShared(env, rows, names, zone, before.value, row, out);
        case Blocked(block) => PartitionBlocked(env, rows, names, zone, before.value, block);
        case Refused =>
      }
    }
  }

  lemma TreatedNext(env: Env, rows: map<string, RawRow>, names: seq<string>, zone: Zone)
    requires names != [] && forall k :: 0 <= k < |names| ==> names[k] in zone
    ensures
      var n := |names| - 1;
      AllTreated(env, rows, names, zone) <==>
        AllTreated(env, rows, names[..n], zone) && !Treat(env, rows, names[n], zone[names[n]]).Refused?
  {
    hide Treat;
    var n := |names| - 1;
    if AllTreated(env, rows, names, zone) {
      forall k | 0 <= k < n ensures !Treat(env, rows, names[..n][k], zone[names[..n][k]]).Refused? {
        assert names[..n][k] == names[k];
      }
    }
    if AllTreated(env, rows, names[..n], zone) {
      forall k | 0 <= k < n ensures !Treat(env, rows, names[k], zone[names[k]]).Refused? {
        assert names[..n][k] == names[k];
      }
    }
  }

  lemma NothingPartitioned(env: Env, rows: map<string, RawRow>, zone: Zone)
    ensures Partitioned(env, rows, [], zone, Outcome([], [], map[]))
  {}

  lemma PartitionShared(env: Env, rows: map<string, RawRow>, names: seq<string>, zone: Zone, before: Outcome, row: FileRow, out: Bytes)
    requires names != [] && (forall j, k :: 0 <= j < k < |names| ==> names[j] != names[k])
    requires var n := |names| - 1;
             && names[n] in zone && Partitioned(env, rows, names[..n], zone, before)
             && Treat(env, rows, names[n], zone[names[n]]) == Shared(row, out)
             && row.source == names[n] && row.output == names[n]
    ensures Partitioned(env, rows, names, zone, Outcome(before.files + [row], before.blocked, before.zone[names[|names| - 1] := out]))
  {
    hide Treat, Sources, Outputs, BlockedNames;
    var n := |names| - 1;
    var earlier := names[..n];
    var done := Outcome(before.files + [row], before.blocked, before.zone[names[n] := out]);
    assert names == earlier + [names[n]] && names[n] !in earlier;
    assert done.files[..|before.files|] == before.files && done.files[..|before.files| + 1] == done.files;
    SourcesNext(done.files, |before.files|);
    forall k | 0 <= k < |done.files| ensures Made(env, rows, names, zone, done, done.files[k]) {
      if k < |before.files| { assert Made(env, rows, earlier, zone, before, before.files[k]); }
    }
    forall k | 0 <= k < |done.blocked| ensures Put(env, rows, names, zone, done.blocked[k]) {
      assert Put(env, rows, earlier, zone, before.blocked[k]);
    }
    forall k | 0 <= k < |before.files| ensures before.files[k].source != row.source && before.files[k].output != row.output {
      assert Made(env, rows, earlier, zone, before, before.files[k]);
    }
  }

  lemma PartitionBlocked(env: Env, rows: map<string, RawRow>, names: seq<string>, zone: Zone, before: Outcome, block: BlockedRow)
    requires names != [] && (forall j, k :: 0 <= j < k < |names| ==> names[j] != names[k])
    requires var n := |names| - 1;
             && names[n] in zone && Partitioned(env, rows, names[..n], zone, before)
             && Treat(env, rows, names[n], zone[names[n]]) == Blocked(block) && block.file == names[n]
    ensures Partitioned(env, rows, names, zone, before.(blocked := before.blocked + [block]))
  {
    hide Treat;
    var n := |names| - 1;
    var earlier := names[..n];
    var done := before.(blocked := before.blocked + [block]);
    assert names == earlier + [names[n]] && names[n] !in earlier;
    assert done.blocked[..|before.blocked|] == before.blocked && done.blocked[..|before.blocked| + 1] == done.blocked;
    BlockedGrows(done.blocked, |before.blocked|);
    forall k | 0 <= k < |done.files| ensures Made(env, rows, names, zone, done, done.files[k]) {
      assert Made(env, rows, earlier, zone, before, before.files[k]);
    }
    forall k | 0 <= k < |done.blocked| ensures Put(env, rows, names, zone, done.blocked[k]) {
      if k < |before.blocked| { assert Put(env, rows, earlier, zone, before.blocked[k]); }
    }
    forall k | 0 <= k < |before.blocked| ensures before.blocked[k].file != block.file {
      assert Put(env, rows, earlier, zone, before.blocked[k]);
    }
  }

  lemma BlockedGrows(rows: seq<BlockedRow>, i: nat)
    requires i < |rows|
    ensures BlockedNames(rows[..i + 1]) == BlockedNames(rows[..i]) + {rows[i].file}
  {
    var before, after := rows[..i], rows[..i + 1];
    assert after == before + [rows[i]];
    forall s | s in BlockedNames(after) ensures s in BlockedNames(before) + {rows[i].file} {
      var k :| 0 <= k < |after| && after[k].file == s;
      assert k < i ==> before[k].file == s;
    }
    forall s | s in BlockedNames(before) ensures s in BlockedNames(after) {
      var k :| 0 <= k < |before| && before[k].file == s;
      assert after[k].file == s;
    }
    assert after[i].file in BlockedNames(after);
  }

  lemma {:induction false} RawByNameIs(rows: seq<RawRow>)
    requires UniqueNames(rows)
    ensures forall k :: 0 <= k < |rows| ==> rows[k].name in RawByName(rows) && RawByName(rows)[rows[k].name] == rows[k]
    ensures forall name :: name in RawByName(rows) ==> exists k :: 0 <= k < |rows| && rows[k].name == name
    decreases |rows|
  {
    if rows != [] {
      var n := |rows| - 1;
      var earlier := rows[..n];
      RawByNameIs(earlier);
      forall k | 0 <= k < n ensures rows[k].name in RawByName(rows) && RawByName(rows)[rows[k].name] == rows[k] {
        assert earlier[k] == rows[k];
      }
      forall name | name in RawByName(rows) ensures exists k :: 0 <= k < |rows| && rows[k].name == name {
        if name in RawByName(earlier) {
          var k :| 0 <= k < |earlier| && earlier[k].name == name;
          assert rows[k].name == name;
        } else {
          assert rows[n].name == name;
        }
      }
    }
  }

  lemma {:induction false} ShareAt(files: seq<FileRow>, k: nat)
    requires Distinct(files) && k < |files|
    ensures
      var shares := ShareByName(ShareRows(files));
      files[k].output in shares && shares[files[k].output] == ShareRowOf(files[k])
    decreases |files|
  {
    var n := |files| - 1;
    assert ShareRows(files)[..n] == ShareRows(files[..n]);
    if k < n {
      ShareAt(files[..n], k);
    }
  }

  lemma {:induction false} ShareKeys(files: seq<FileRow>)
    ensures ShareByName(ShareRows(files)).Keys == Outputs(files)
    decreases |files|
  {
    if files != [] {
      var n := |files| - 1;
      assert ShareRows(files)[..n] == ShareRows(files[..n]);
      ShareKeys(files[..n]);
      hide Sources, Outputs;
      SourcesNext(files, n);
      assert files[..n + 1] == files;
    }
  }

  /** The state collect leaves: rows and raw files match one to one, nothing redacted yet. */
  ghost predicate Collecting(d: Dep) {
    && d.report.None? && d.shareZone == map[] && d.shareable == [] && UniqueNames(d.raw)
    && (forall k :: 0 <= k < |d.raw| ==> IsName(d.raw[k].name) && d.raw[k].name in d.rawZone)
    && (forall name :: name in d.rawZone ==> exists k :: 0 <= k < |d.raw| && d.raw[k].name == name)
  }

  /** Before the report exists, every run is in that state. */
  ghost predicate CollectingUntilReport(d: Dep) {
    d.report.None? ==> Collecting(d)
  }

  lemma ApplyCollects(env: Env, d: Dep, op: Op)
    requires CollectingUntilReport(d)
    ensures CollectingUntilReport(Apply(env, d, op))
  {
    hide Verifies, RedactFiles, Suffix;
    if op.DoCollect? && d.report.None? {
      var e := Apply(env, d, op);
      forall name | name in e.rawZone ensures exists k :: 0 <= k < |e.raw| && e.raw[k].name == name {
        if name in d.rawZone {
          var k :| 0 <= k < |d.raw| && d.raw[k].name == name;
          assert e.raw[k].name == name;
        } else {
          assert e.raw[|e.raw| - 1].name == name;
        }
      }
    }
  }

  lemma {:induction false} RunCollects(env: Env, d: Dep, ops: seq<Op>)
    requires CollectingUntilReport(d)
    ensures CollectingUntilReport(Run(env, d, ops))
    decreases |ops|
  {
    hide CollectingUntilReport, Apply;
    if ops != [] {
      ApplyCollects(env, d, ops[0]);
      RunCollects(env, Apply(env, d, ops[0]), ops[1..]);
    }
  }

  /** The manifest's raw rows by name after redaction carry the observed digests. */
  lemma ObservedByName(d: Dep, name: string)
    requires Collecting(d) && name in d.rawZone
    ensures
      var after, before := RawByName(Observed(d.raw, d.rawZone)), RawByName(d.raw);
      && name in after && name in before && IsName(name)
      && after[name] == before[name].(sha := Sha256(d.rawZone[name]), size := |d.rawZone[name]|)
  {
    hide RawByName;
    var rows := Observed(d.raw, d.rawZone);
    assert UniqueNames(rows);
    RawByNameIs(d.raw);
    RawByNameIs(rows);
    var k :| 0 <= k < |d.raw| && d.raw[k].name == name;
    assert rows[k].name == name;
  }

  lemma ObservedKeys(d: Dep)
    requires Collecting(d)
    ensures RawByName(Observed(d.raw, d.rawZone)).Keys == d.rawZone.Keys
  {
    hide RawByName;
    var rows := Observed(d.raw, d.rawZone);
    assert UniqueNames(rows);
    RawByNameIs(rows);
    forall name | name in RawByName(rows) ensures name in d.rawZone {
      var k :| 0 <= k < |rows| && rows[k].name == name;
      assert d.raw[k].name == name;
    }
    forall name | name in d.rawZone ensures name in RawByName(rows) {
      ObservedByName(d, name);
    }
  }

  /** A row redact wrote passes the row checks exactly when the two redactors agree on its source. */
  lemma MadeRowOk(env: Env, d: Dep, names: seq<string>, done: Outcome, k: nat)
    requires Counting(env) && Collecting(d) && Lists(names, d.rawZone)
    requires Partitioned(env, RawByName(d.raw), names, d.rawZone, done) && k < |done.files|
    ensures
      var row := done.files[k];
      row.source in d.rawZone && (FileOk(env, Redone(d, done), row) <==> Agree(env, d.rawZone[row.source]))
  {
    hide RawByName, ShareByName, Suffix, Totals, Observed, Sources, Outputs, BlockedNames, Distinct, DistinctBlocked;
    var row := done.files[k];
    assert Made(env, RawByName(d.raw), names, d.rawZone, done, row);
    ObservedByName(d, row.source);
    ShareAt(done.files, k);
  }

  lemma PutRowOk(env: Env, d: Dep, names: seq<string>, done: Outcome, k: nat)
    requires Collecting(d) && Lists(names, d.rawZone)
    requires Partitioned(env, RawByName(d.raw), names, d.rawZone, done) && k < |done.blocked|
    ensures BlockedOk(Redone(d, done), done.blocked[k])
  {
    hide RawByName, ShareByName, Suffix, Totals, Observed, Sources, Outputs, BlockedNames, Distinct, DistinctBlocked;
    assert Put(env, RawByName(d.raw), names, d.rawZone, done.blocked[k]);
    assert done.blocked[k].reason[0] in ['h', 'b', 'n'] && !Blank(done.blocked[k].reason);
    ObservedByName(d, done.blocked[k].file);
  }

  /** Every file the stream writes is one the two redactors agree on. */
  ghost predicate Agreed(env: Env, d: Dep) {
    forall name :: name in d.rawZone && IsShared(env, RawByName(d.raw), name, d.rawZone[name]) ==> Agree(env, d.rawZone[name])
  }

  /** No file of the package makes the stream give up. */
  ghost predicate NoneAborts(env: Env, d: Dep) {
    forall name :: name in d.rawZone ==> !Treat(env, RawByName(d.raw), name, d.rawZone[name]).Refused?
  }

  /** Redacting any collected package writes a report exactly when no file makes the stream give up,
      and leaves the package alone otherwise. The verifier accepts the report exactly when, on every
      shared file, the stream and the whole-text redactor give the same text and counts and that
      text is left alone by a second redaction. */
  lemma RedactedIsAssociated(env: Env, d: Dep, names: seq<string>)
    requires Counting(env) && Collecting(d) && Lists(names, d.rawZone)
    ensures
      var e := Redact(env, d, names);
      && (e.report.Some? <==> NoneAborts(env, d))
      && (e.report.None? ==> e == d)
      && (e.report.Some? ==> (Associated(env, e, e.report.value) <==> Agreed(env, d)))
  {
    hide RedactFiles, RawByName, Partitioned, AllTreated, Associated, Agreed, NoneAborts, Redone, Lists;
    Listed(names, d.rawZone);
    RedactPartitions(env, RawByName(d.raw), names, d.rawZone);
    ListedTreated(env, d, names);
    var done := RedactFiles(env, RawByName(d.raw), names, d.rawZone);
    if done.Some? {
      DoneIsAssociated(env, d, names, done.value);
    }
    RedactIs(env, d, names);
  }

  lemma Listed(names: seq<string>, zone: Zone)
    requires Lists(names, zone)
    ensures forall k :: 0 <= k < |names| ==> names[k] in zone
    ensures forall j, k :: 0 <= j < k < |names| ==> names[j] != names[k]
    ensures (set name | name in names) == zone.Keys
  {}

  lemma ListedTreated(env: Env, d: Dep, names: seq<string>)
    requires Lists(names, d.rawZone)
    ensures AllTreated(env, RawByName(d.raw), names, d.rawZone) <==> NoneAborts(env, d)
  {
    hide Treat, RawByName;
  }

  lemma RedactIs(env: Env, d: Dep, names: seq<string>)
    requires Collecting(d) && Lists(names, d.rawZone)
    ensures
      var done := RedactFiles(env, RawByName(d.raw), names, d.rawZone);
      Redact(env, d, names) == if done.None? then d else Redone(d, done.value)
  {
    hide RedactFiles, RawByName, Redone;
  }

  lemma DoneIsAssociated(env: Env, d: Dep, names: seq<string>, done: Outcome)
    requires Counting(env) && Collecting(d) && Lists(names, d.rawZone)
    requires Partitioned(env, RawByName(d.raw), names, d.rawZone, done)
    ensures var e := Redone(d, done); e.report.Some? && (Associated(env, e, e.report.value) <==> Agreed(env, d))
  {
    hide RawByName, ShareByName, Totals, Observed, FileOk, BlockedOk, Agree, Agreed, Lists,
         Sources, Outputs, BlockedNames, Distinct, DistinctBlocked, Made, Put, FilesOk;
    var e := Redone(d, done);
    ObservedKeys(d);
    ShareKeys(done.files);
    Listed(names, d.rawZone);
    forall k | 0 <= k < |done.blocked| ensures BlockedOk(e, done.blocked[k]) && done.blocked[k].file !in Sources(done.files) {
      PutRowOk(env, d, names, done, k);
      BlockedMember(done.blocked, k);
    }
    assert AllBlockedOk(e, Sources(done.files), done.blocked);
    AgreedFiles(env, d, names, done);
  }

  lemma BlockedMember(rows: seq<BlockedRow>, k: nat)
    requires k < |rows|
    ensures rows[k].file in BlockedNames(rows)
  {}

  /** The shared files are the sources of the rows. */
  lemma SharedIsSource(env: Env, d: Dep, names: seq<string>, done: Outcome, name: string)
    requires Lists(names, d.rawZone) && Partitioned(env, RawByName(d.raw), names, d.rawZone, done) && name in d.rawZone
    ensures IsShared(env, RawByName(d.raw), name, d.rawZone[name]) <==> name in Sources(done.files)
  {
    hide Treat, RawByName, Outputs, Distinct, DistinctBlocked;
    assert name in Sources(done.files) + BlockedNames(done.blocked);
    if name in Sources(done.files) {
      var k :| 0 <= k < |done.files| && done.files[k].source == name;
      assert Made(env, RawByName(d.raw), names, d.rawZone, done, done.files[k]);
    } else {
      var k :| 0 <= k < |done.blocked| && done.blocked[k].file == name;
      assert Put(env, RawByName(d.raw), names, d.rawZone, done.blocked[k]);
    }
  }

  lemma AgreedFiles(env: Env, d: Dep, names: seq<string>, done: Outcome)
    requires Counting(env) && Collecting(d) && Lists(names, d.rawZone)
    requires Partitioned(env, RawByName(d.raw), names, d.rawZone, done)
    ensures FilesOk(env, Redone(d, done), done.files) <==> Agreed(env, d)
  {
    hide RawByName, FileOk, Agree, IsShared, Made, Put, Outputs, BlockedNames, DistinctBlocked, Distinct, Lists, Redone, Collecting;
    var e := Redone(d, done);
    if FilesOk(env, e, done.files) {
      forall name | name in d.rawZone && IsShared(env, RawByName(d.raw), name, d.rawZone[name]) ensures Agree(env, d.rawZone[name]) {
        SharedIsSource(env, d, names, done, name);
        var k :| 0 <= k < |done.files| && done.files[k].source == name;
        MadeRowOk(env, d, names, done, k);
        assert FileOk(env, e, done.files[k]);
      }
    }
    if Agreed(env, d) {
      forall k | 0 <= k < |done.files| ensures FileOk(env, e, done.files[k]) {
        MadeRowOk(env, d, names, done, k);
        SharedIsSource(env, d, names, done, done.files[k].source);
      }
    }
  }

  /** A package with one shared file the two redactors do not agree on, once redacted, never leaves
      red: collect and redact are closed and every verification fails. */
  lemma DisagreementStaysRed(env: Env, d: Dep, names: seq<string>, ops: seq<Op>)
    requires Counting(env) && Collecting(d) && Lists(names, d.rawZone) && Lawful(env, d) && d.phase == Red
    requires NoneAborts(env, d) && !Agreed(env, d)
    ensures Run(env, Redact(env, d, names), ops).phase == Red
  {
    hide Associated, ArtifactsOk, Agreed, NoneAborts, Run, Redact, Collecting, Counting, Lists;
    RedactedIsAssociated(env, d, names);
    var e := Redact(env, d, names);
    ApplyKeeps(env, d, DoRedact(names));
    EveryRunIsLawful(env, e, ops);
    PastRedIsFrozen(env, e, ops);
    SameAssociation(env, e, Run(env, e, ops), e.report.value);
  }
}
