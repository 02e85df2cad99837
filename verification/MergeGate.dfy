/** The tree theorems behind the merge gate (src/sddgov/merge_gate.py).

    Commits form an acyclic graph, trees map paths to blobs, `git diff --name-status -z` prints
    records that name every path at which two trees differ, and `git merge-tree` merges path by
    path. */
module MergeGate {
  import opened Common

  const AUDIT_GATE_PATH: string := ".sddgov/merge-gate.json"
  const AUDIT_REVIEW_PREFIX: string := ".sddgov/reviews/"
  const AUDIT_EVIDENCE_PREFIX: string := "evidence/"

  /** _is_audit_path */
  predicate IsAuditPath(path: string, includeEvidence: bool) {
    || path == AUDIT_GATE_PATH
    || AUDIT_REVIEW_PREFIX <= path
    || (includeEvidence && AUDIT_EVIDENCE_PREFIX <= path)
  }

  /** _is_protected */
  predicate IsProtected(path: string, patterns: seq<string>) {
    exists k :: 0 <= k < |patterns| && Guards(patterns[k], path)
  }

  predicate Guards(pattern: string, path: string) {
    if pattern != "" && pattern[|pattern| - 1] == '/' then pattern <= path else path == pattern
  }

  // ---------------------------------------------------------------- NUL-delimited name-status output

  /** One record: a status and the paths it names. */
  datatype NameStatus = NameStatus(status: string, paths: seq<string>)

  function Width(status: string): nat {
    if status != "" && (status[0] == 'R' || status[0] == 'C') then 3 else 2
  }

  predicate ValidStatus(r: NameStatus) {
    && r.status != "" && |r.paths| == Width(r.status) - 1
    && '\0' !in r.status && forall k :: 0 <= k < |r.paths| ==> '\0' !in r.paths[k]
  }

  function FieldsOf(rs: seq<NameStatus>): seq<string> {
    if rs == [] then [] else [rs[0].status] + rs[0].paths + FieldsOf(rs[1..])
  }

  function Elements(fields: seq<string>): set<string> {
    set f | f in fields
  }

  function PathsOf(rs: seq<NameStatus>): set<string> {
    if rs == [] then {} else Elements(rs[0].paths) + PathsOf(rs[1..])
  }

  /** What Git prints: every field followed by a NUL. */
  function Terminated(fields: seq<string>): string {
    if fields == [] then "" else fields[0] + ['\0'] + Terminated(fields[1..])
  }

  /** text.split("\0") */
  function Split(text: string): (fields: seq<string>)
    ensures fields != []
    decreases |text|
  {
    if text == "" then [""]
    else if text[0] == '\0' then [""] + Split(text[1..])
    else var rest := Split(text[1..]); [[text[0]] + rest[0]] + rest[1..]
  }

  /** The fields the parser walks: an empty last field is dropped. */
  function Fields(text: string): seq<string> {
    var fields := Split(text);
    if fields[|fields| - 1] == "" then fields[..|fields| - 1] else fields
  }

  function PathsIn(fields: seq<string>): Option<set<string>>
    decreases |fields|
  {
    if fields == [] then Some({}) else
      var width := Width(fields[0]);
      if fields[0] == "" || |fields| < width then None else
        var rest := PathsIn(fields[width..]);
        if rest.None? then None
        else Some(Elements(fields[1..width]) + rest.value)
  }

  /** changed_paths and _commit_edge_paths: the loop over the fields. */
  method ParseNameStatus(text: string) returns (paths: Option<set<string>>)
    ensures paths == PathsIn(Fields(text))
  {
    var fields := Fields(text);
    var found: set<string> := {};
    var index := 0;
    assert fields[index..] == fields && (PathsIn(fields).Some? ==> {} + PathsIn(fields).value == PathsIn(fields).value);
    while index < |fields|
      invariant 0 <= index <= |fields|
      invariant
        var rest := PathsIn(fields[index..]);
        PathsIn(fields) == if rest.None? then None else Some(found + rest.value)
    {
      var width := Width(fields[index]);
      if fields[index] == "" || |fields| < index + width {
        return None;
      }
      ghost var tail := fields[index..];
      assert tail[1..width] == fields[index + 1..index + width] && tail[width..] == fields[index + width..];
      ghost var rest, named := PathsIn(tail[width..]), Elements(tail[1..width]);
      assert rest.Some? ==> found + (named + rest.value) == (found + named) + rest.value;
      found := found + Elements(fields[index + 1..index + width]);
      index := index + width;
    }
    return Some(found);
  }

  lemma {:induction false} SplitField(f: string, rest: string)
    requires '\0' !in f
    ensures Split(f + ['\0'] + rest) == [f] + Split(rest)
    decreases |f|
  {
    var text := f + ['\0'] + rest;
    if f == "" {
      assert text[1..] == rest;
    } else {
      assert text[1..] == f[1..] + ['\0'] + rest;
      SplitField(f[1..], rest);
      assert [f[0]] + f[1..] == f;
    }
  }

  lemma {:induction false} SplitTerminated(fields: seq<string>)
    requires forall k :: 0 <= k < |fields| ==> '\0' !in fields[k]
    ensures Split(Terminated(fields)) == fields + [""]
    decreases |fields|
  {
    if fields != [] {
      SplitField(fields[0], Terminated(fields[1..]));
      SplitTerminated(fields[1..]);
    }
  }

  lemma {:induction false} FieldsOfClean(rs: seq<NameStatus>)
    requires forall k :: 0 <= k < |rs| ==> ValidStatus(rs[k])
    ensures forall k :: 0 <= k < |FieldsOf(rs)| ==> '\0' !in FieldsOf(rs)[k]
    decreases |rs|
  {
    if rs != [] {
      FieldsOfClean(rs[1..]);
    }
  }

  lemma {:induction false} PathsInRecords(rs: seq<NameStatus>)
    requires forall k :: 0 <= k < |rs| ==> ValidStatus(rs[k])
    ensures PathsIn(FieldsOf(rs)) == Some(PathsOf(rs))
    decreases |rs|
  {
    if rs != [] {
      var fields := FieldsOf(rs);
      var width := Width(rs[0].status);
      PathsInRecords(rs[1..]);
      assert fields[width..] == FieldsOf(rs[1..]);
      assert fields[1..width] == rs[0].paths;
    }
  }

  /** Reading back what Git printed gives exactly the paths it named. */
  lemma OutputRoundTrip(rs: seq<NameStatus>)
    requires forall k :: 0 <= k < |rs| ==> ValidStatus(rs[k])
    ensures PathsIn(Fields(Terminated(FieldsOf(rs)))) == Some(PathsOf(rs))
  {
    hide PathsIn, Split, PathsOf, FieldsOf, Terminated;
    FieldsOfClean(rs);
    SplitTerminated(FieldsOf(rs));
    assert (FieldsOf(rs) + [""])[..|FieldsOf(rs)|] == FieldsOf(rs);
    PathsInRecords(rs);
  }

  /** Nothing but records is accepted. */
  lemma {:induction false} AcceptedIsRecords(fields: seq<string>) returns (rs: seq<NameStatus>)
    requires PathsIn(fields).Some?
    ensures FieldsOf(rs) == fields && PathsIn(fields) == Some(PathsOf(rs))
    ensures forall k :: 0 <= k < |rs| ==> rs[k].status != "" && |rs[k].paths| == Width(rs[k].status) - 1
    decreases |fields|
  {
    if fields == [] {
      rs := [];
    } else {
      var width := Width(fields[0]);
      var rest := AcceptedIsRecords(fields[width..]);
      var first := NameStatus(fields[0], fields[1..width]);
      rs := [first] + rest;
      assert rs[1..] == rest;
      assert [fields[0]] + fields[1..width] + fields[width..] == fields;
    }
  }

  // ---------------------------------------------------------------- the commit graph

  type Commit = nat
  type Blob = nat
  type Tree = map<string, Blob>

  /** A repository as Git shows it. `records(a, b)` is what a diff of a and b reports. */
  datatype Repo = Repo(
    parents: map<Commit, seq<Commit>>,
    rank: Commit -> nat,
    tree: Commit -> Tree,
    records: (Commit, Commit) -> seq<NameStatus>,
    mergeBase: (Commit, Commit) -> Commit)

  function Blobs(t: Tree, path: string): Option<Blob> {
    if path in t then Some(t[path]) else None
  }

  /** Acyclic: parents come before their children. */
  ghost predicate Acyclic(r: Repo) {
    forall c, p :: c in r.parents && p in r.parents[c] ==> p in r.parents && r.rank(p) < r.rank(c)
  }

  function Ancestors(r: Repo, c: Commit): set<Commit>
    requires Acyclic(r) && c in r.parents
    decreases r.rank(c)
  {
    {c} + set p, a | p in r.parents[c] && a in Ancestors(r, p) :: a
  }

  /** A diff names every path at which the trees differ. */
  ghost predicate DiffNames(r: Repo, a: Commit, b: Commit) {
    && (forall k :: 0 <= k < |r.records(a, b)| ==> ValidStatus(r.records(a, b)[k]))
    && forall path :: Blobs(r.tree(a), path) != Blobs(r.tree(b), path) ==> path in PathsOf(r.records(a, b))
  }

  ghost predicate GitLaws(r: Repo) {
    && Acyclic(r)
    && (forall a: Commit, b: Commit {:trigger r.records(a, b)} :: DiffNames(r, a, b))
    && (forall a, b :: a in r.parents && b in r.parents && a in Ancestors(r, b) ==> r.mergeBase(a, b) == a)
  }

  /** The paths of `git diff a b`. */
  function DiffPaths(r: Repo, a: Commit, b: Commit): Option<set<string>> {
    PathsIn(Fields(Terminated(FieldsOf(r.records(a, b)))))
  }

  lemma DiffPathsAre(r: Repo, a: Commit, b: Commit)
    requires GitLaws(r)
    ensures DiffPaths(r, a, b) == Some(PathsOf(r.records(a, b)))
    ensures forall path :: Blobs(r.tree(a), path) != Blobs(r.tree(b), path) ==> path in DiffPaths(r, a, b).value
  {
    hide PathsIn, Fields, Terminated, FieldsOf, PathsOf;
    assert DiffNames(r, a, b);
    OutputRoundTrip(r.records(a, b));
  }

  lemma {:induction false} AncestorsKnown(r: Repo, c: Commit, a: Commit)
    requires Acyclic(r) && c in r.parents && a in Ancestors(r, c)
    ensures a in r.parents && (a == c || r.rank(a) < r.rank(c))
    decreases r.rank(c)
  {
    if a != c {
      var p :| p in r.parents[c] && a in Ancestors(r, p);
      AncestorsKnown(r, p, a);
    }
  }

  lemma {:induction false} AncestorsTransitive(r: Repo, c: Commit, b: Commit, a: Commit)
    requires Acyclic(r) && c in r.parents && b in Ancestors(r, c) && b in r.parents && a in Ancestors(r, b)
    ensures a in Ancestors(r, c)
    decreases r.rank(c)
  {
    if b != c {
      var p :| p in r.parents[c] && b in Ancestors(r, p);
      AncestorsTransitive(r, p, b, a);
    }
  }

  // ---------------------------------------------------------------- audit-only ranges

  /** git rev-list start..end */
  function Range(r: Repo, start: Commit, end: Commit): set<Commit>
    requires Acyclic(r) && start in r.parents && end in r.parents
  {
    Ancestors(r, end) - Ancestors(r, start)
  }

  predicate EdgeIsAudit(r: Repo, parent: Commit, commit: Commit, ev: bool) {
    var paths := DiffPaths(r, parent, commit);
    paths.Some? && forall path :: path in paths.value ==> IsAuditPath(path, ev)
  }

  predicate CommitIsAudit(r: Repo, c: Commit, ev: bool)
    requires c in r.parents
  {
    r.parents[c] != [] && forall k :: 0 <= k < |r.parents[c]| ==> EdgeIsAudit(r, r.parents[c][k], c, ev)
  }

  /** _every_descendant_commit_is_audit_only, as a statement */
  ghost predicate AuditOnly(r: Repo, start: Commit, end: Commit, ev: bool)
    requires Acyclic(r) && start in r.parents && end in r.parents
  {
    && start in Ancestors(r, end)
    && forall c :: c in Range(r, start, end) ==> c in r.parents && CommitIsAudit(r, c, ev)
  }

  /** The loop over the listed commits and their parents, in whatever order Git lists them. */
  method EveryDescendantCommitIsAuditOnly(r: Repo, start: Commit, end: Commit, ev: bool, commits: seq<Commit>)
    returns (ok: bool)
    requires Acyclic(r) && start in r.parents && end in r.parents
    requires forall c :: c in commits <==> c in Range(r, start, end)
    ensures ok <==> AuditOnly(r, start, end, ev)
  {
    hide Ancestors, CommitIsAudit, Acyclic;
    if start !in Ancestors(r, end) {
      return false;
    }
    forall c | c in Range(r, start, end) ensures c in r.parents {
      AncestorsKnown(r, end, c);
    }
    var i := 0;
    while i < |commits|
      invariant 0 <= i <= |commits|
      invariant forall k :: 0 <= k < i ==> commits[k] in r.parents && CommitIsAudit(r, commits[k], ev)
    {
      assert commits[i] in Range(r, start, end);
      var audit := EveryEdgeIsAudit(r, commits[i], ev);
      if !audit {
        return false;
      }
      i := i + 1;
    }
    return true;
  }

  method EveryEdgeIsAudit(r: Repo, c: Commit, ev: bool) returns (ok: bool)
    requires c in r.parents
    ensures ok <==> CommitIsAudit(r, c, ev)
  {
    hide PathsIn, Fields, Terminated, FieldsOf, IsAuditPath;
    var parents := r.parents[c];
    if parents == [] {
      return false;
    }
    var j := 0;
    while j < |parents|
      invariant 0 <= j <= |parents|
      invariant forall k :: 0 <= k < j ==> EdgeIsAudit(r, parents[k], c, ev)
    {
      var paths := ParseNameStatus(Terminated(FieldsOf(r.records(parents[j], c))));
      if paths.None? || exists path | path in paths.value :: !IsAuditPath(path, ev) {
        assert !EdgeIsAudit(r, parents[j], c, ev);
        return false;
      }
      j := j + 1;
    }
    return true;
  }

  /** Two trees agree on every path that is not an audit path. */
  ghost predicate Agree(a: Tree, b: Tree, ev: bool) {
    forall path :: !IsAuditPath(path, ev) ==> Blobs(a, path) == Blobs(b, path)
  }

  lemma AuditEdgeAgrees(r: Repo, parent: Commit, commit: Commit, ev: bool)
    requires GitLaws(r) && EdgeIsAudit(r, parent, commit, ev)
    ensures Agree(r.tree(parent), r.tree(commit), ev)
  {
    hide DiffPaths, Acyclic;
    DiffPathsAre(r, parent, commit);
  }

  /** Walking up from a checked commit to one of its ancestors that is checked too, or is the start. */
  lemma {:induction false} WalkAgrees(r: Repo, start: Commit, end: Commit, ev: bool, x: Commit, c: Commit)
    requires GitLaws(r) && start in r.parents && end in r.parents && AuditOnly(r, start, end, ev)
    requires x in r.parents && (x in Range(r, start, end) || x == c)
    requires c in Ancestors(r, x) && (c in Range(r, start, end) || c == start)
    ensures Agree(r.tree(c), r.tree(x), ev)
    decreases r.rank(x)
  {
    hide EdgeIsAudit, Agree, DiffNames;
    if c == x {
      AgreeSelf(r.tree(c), ev);
    } else {
      var p :| p in r.parents[x] && c in Ancestors(r, p);
      assert CommitIsAudit(r, x, ev);
      var k :| 0 <= k < |r.parents[x]| && r.parents[x][k] == p;
      assert EdgeIsAudit(r, r.parents[x][k], x, ev);
      AuditEdgeAgrees(r, p, x, ev);
      InRange(r, start, end, x, p, c);
      WalkAgrees(r, start, end, ev, p, c);
      AgreeTrans(r.tree(c), r.tree(p), r.tree(x), ev);
    }
  }

  lemma AgreeSelf(a: Tree, ev: bool)
    ensures Agree(a, a, ev)
  {}

  lemma AgreeTrans(a: Tree, b: Tree, c: Tree, ev: bool)
    requires Agree(a, b, ev) && Agree(b, c, ev)
    ensures Agree(a, c, ev)
  {}

  lemma ParentIsAncestor(r: Repo, x: Commit, p: Commit)
    requires Acyclic(r) && x in r.parents && p in r.parents[x]
    ensures p in Ancestors(r, x)
  {
    assert p in Ancestors(r, p);
  }

  /** A parent on the way from a checked commit to `c` is checked, or is `c` itself. */
  lemma InRange(r: Repo, start: Commit, end: Commit, x: Commit, p: Commit, c: Commit)
    requires Acyclic(r) && start in r.parents && end in r.parents
    requires x in r.parents && x in Range(r, start, end) && p in r.parents[x] && c in Ancestors(r, p)
    requires c in Range(r, start, end) || c == start
    ensures p in r.parents && (p in Range(r, start, end) || p == c)
  {
    assert p in r.parents && r.rank(p) < r.rank(x);
    ParentIsAncestor(r, x, p);
    hide Ancestors, Acyclic;
    AncestorsTransitive(r, end, x, p);
    if p in Ancestors(r, start) {
      AncestorsTransitive(r, start, p, c);
      AncestorsKnown(r, start, p);
      AncestorsKnown(r, p, c);
    }
  }

  /** Audit-only ranges: if the check passes, then the trees of the start, of the end and of every
      commit between them, on every branch of the history, agree off the audit paths. No edit in
      the middle is hidden by a later one. */
  lemma AuditOnlyRange(r: Repo, start: Commit, end: Commit, ev: bool, c: Commit)
    requires GitLaws(r) && start in r.parents && end in r.parents && AuditOnly(r, start, end, ev)
    requires c in Range(r, start, end) || c == start
    ensures Agree(r.tree(c), r.tree(end), ev)
  {
    hide CommitIsAudit, Agree, DiffNames;
    if end in Ancestors(r, start) {
      AncestorsKnown(r, start, end);
      AncestorsKnown(r, end, start);
      if c != start {
        AncestorsTransitive(r, start, end, c);
      }
    } else {
      assert end in Range(r, start, end);
    }
    WalkAgrees(r, start, end, ev, end, c);
  }

  // ---------------------------------------------------------------- the rollback proof

  datatype Merged = Clean(value: Option<Blob>) | Conflict

  /** Three-way merge of one path. */
  function Merge3(base: Option<Blob>, ours: Option<Blob>, theirs: Option<Blob>): Merged {
    if ours == theirs then Clean(ours)
    else if base == ours then Clean(theirs)
    else if base == theirs then Clean(ours)
    else Conflict
  }

  function MergeAt(base: Tree, ours: Tree, theirs: Tree, path: string): Merged {
    Merge3(Blobs(base, path), Blobs(ours, path), Blobs(theirs, path))
  }

  /** git merge-tree --write-tree: a tree, or a conflict somewhere. */
  function MergeTree(base: Tree, ours: Tree, theirs: Tree): Option<Tree> {
    var all := base.Keys + ours.Keys + theirs.Keys;
    if exists path :: path in all && MergeAt(base, ours, theirs, path).Conflict? then None
    else Some(map path | path in all && MergeAt(base, ours, theirs, path).Clean?
                         && MergeAt(base, ours, theirs, path).value.Some?
                :: MergeAt(base, ours, theirs, path).value.value)
  }

  lemma MergeTreeAt(base: Tree, ours: Tree, theirs: Tree, path: string)
    requires MergeTree(base, ours, theirs).Some?
    ensures MergeAt(base, ours, theirs, path) == Clean(Blobs(MergeTree(base, ours, theirs).value, path))
  {}

  /** changed_paths(a, b): the diff from the merge base. */
  function ChangedPaths(r: Repo, a: Commit, b: Commit): Option<set<string>> {
    DiffPaths(r, r.mergeBase(a, b), b)
  }

  /** The checks _rollback_ref_is_cleanly_revertible makes before it merges. */
  ghost predicate Revertible(r: Repo, ref: Commit, head: Commit)
    requires Acyclic(r) && ref in r.parents && head in r.parents
  {
    && |r.parents[ref]| == 1
    && (var paths := ChangedPaths(r, r.parents[ref][0], ref);
        paths.Some? && forall path :: path in paths.value ==> !IsAuditPath(path, true))
    && AuditOnly(r, ref, head, true)
  }

  /** _rollback_ref_is_cleanly_revertible */
  ghost predicate CleanlyRevertible(r: Repo, ref: Commit, base: Commit, head: Commit)
    requires Acyclic(r) && ref in r.parents && head in r.parents
  {
    && Revertible(r, ref, head)
    && (var merged := MergeTree(r.tree(ref), r.tree(head), r.tree(r.parents[ref][0]));
        merged.Some? && Agree(r.tree(base), merged.value, true))
  }

  /** A commit that touches no audit path leaves those paths as its parent has them. */
  lemma CommitKeepsAudit(r: Repo, ref: Commit, head: Commit, path: string)
    requires GitLaws(r) && ref in r.parents && head in r.parents && Revertible(r, ref, head) && IsAuditPath(path, true)
    ensures Blobs(r.tree(ref), path) == Blobs(r.tree(r.parents[ref][0]), path)
  {
    hide DiffPaths, AuditOnly, DiffNames, IsAuditPath;
    var p := r.parents[ref][0];
    assert p in r.parents[ref] && p in r.parents;
    ParentIsAncestor(r, ref, p);
    DiffPathsAre(r, p, ref);
  }

  lemma RollbackAt(r: Repo, ref: Commit, head: Commit, path: string)
    requires GitLaws(r) && ref in r.parents && head in r.parents && Revertible(r, ref, head)
    ensures
      var parent := r.parents[ref][0];
      MergeAt(r.tree(ref), r.tree(head), r.tree(parent), path) ==
        Clean(Blobs(if IsAuditPath(path, true) then r.tree(head) else r.tree(parent), path))
  {
    hide DiffNames, IsAuditPath, ChangedPaths, AuditOnly;
    if IsAuditPath(path, true) {
      CommitKeepsAudit(r, ref, head, path);
    } else {
      AuditOnlyRange(r, ref, head, true, ref);
    }
  }

  /** The rollback theorem: once the three checks hold the merge has no conflict at any path, gives
      the parent's tree off the audit and evidence paths and the reviewed Head's on them. */
  lemma RollbackMerges(r: Repo, ref: Commit, head: Commit)
    requires GitLaws(r) && ref in r.parents && head in r.parents && Revertible(r, ref, head)
    ensures
      var parent := r.parents[ref][0];
      var merged := MergeTree(r.tree(ref), r.tree(head), r.tree(parent));
      && merged.Some?
      && Agree(merged.value, r.tree(parent), true)
      && forall path :: IsAuditPath(path, true) ==> Blobs(merged.value, path) == Blobs(r.tree(head), path)
  {
    hide GitLaws, AuditOnly, ChangedPaths, IsAuditPath, MergeAt;
    var parent := r.parents[ref][0];
    forall path ensures MergeAt(r.tree(ref), r.tree(head), r.tree(parent), path) ==
        Clean(Blobs(if IsAuditPath(path, true) then r.tree(head) else r.tree(parent), path)) {
      RollbackAt(r, ref, head, path);
    }
    var merged := MergeTree(r.tree(ref), r.tree(head), r.tree(parent));
    assert merged.Some?;
    forall path ensures Blobs(merged.value, path) ==
        Blobs(if IsAuditPath(path, true) then r.tree(head) else r.tree(parent), path) {
      MergeTreeAt(r.tree(ref), r.tree(head), r.tree(parent), path);
    }
  }

  /** Whether the rollback check accepts is then just whether the trusted Base equals that parent off
      the audit and evidence paths. */
  lemma AcceptedIffBaseIsParent(r: Repo, ref: Commit, base: Commit, head: Commit)
    requires GitLaws(r) && ref in r.parents && head in r.parents && Revertible(r, ref, head)
    ensures CleanlyRevertible(r, ref, base, head) <==> Agree(r.tree(base), r.tree(r.parents[ref][0]), true)
  {
    hide GitLaws, Revertible, MergeTree, IsAuditPath;
    RollbackMerges(r, ref, head);
  }

  // ---------------------------------------------------------------- the order of checks in verify_merge

  datatype Gate = Gate(base: Commit, head: Commit, rollbackRef: Commit, review: Option<string>)

  datatype Verdict = NotReviewedHead | RollbackIncomplete | ReviewMissing | ReviewUnexpected | ReviewRejected | MergeReady

  ghost predicate InCandidateRange(r: Repo, ref: Commit, base: Commit, head: Commit)
    requires Acyclic(r) && ref in r.parents && head in r.parents
  {
    ref != base && base in Ancestors(r, ref) && ref in Ancestors(r, head)
  }

  ghost function ProtectedChanges(r: Repo, base: Commit, head: Commit, patterns: seq<string>): set<string> {
    var changed := ChangedPaths(r, base, head);
    if changed.None? then {} else set path | path in changed.value && IsProtected(path, patterns)
  }

  /** The tree-related checks of verify_merge, in order. `verified` is the receipt verification. */
  ghost function VerifyMerge(r: Repo, g: Gate, head: Commit, patterns: seq<string>, verified: string -> bool): Verdict
    requires Acyclic(r) && g.head in r.parents && g.base in r.parents && g.rollbackRef in r.parents && head in r.parents
  {
    if !AuditOnly(r, g.head, head, false) then NotReviewedHead
    else if !InCandidateRange(r, g.rollbackRef, g.base, g.head) || !CleanlyRevertible(r, g.rollbackRef, g.base, g.head)
    then RollbackIncomplete
    else if ProtectedChanges(r, g.base, head, patterns) != {} then
      if g.review.None? || g.review.value == "" then ReviewMissing
      else if verified(g.review.value) then MergeReady else ReviewRejected
    else if g.review.Some? then ReviewUnexpected
    else MergeReady
  }

  /** What MERGE_READY means for the trees: off the audit and evidence paths the whole change from
      Base to the merged Head is exactly the change of the one declared rollback commit, every
      commit since then agrees with the Head there, and if a protected path differs between Base
      and Head a review receipt was verified. */
  lemma MergeReadyMeans(r: Repo, g: Gate, head: Commit, patterns: seq<string>, verified: string -> bool)
    requires GitLaws(r) && g.head in r.parents && g.base in r.parents && g.rollbackRef in r.parents && head in r.parents
    requires VerifyMerge(r, g, head, patterns, verified) == MergeReady
    ensures |r.parents[g.rollbackRef]| == 1
    ensures
      var parent := r.parents[g.rollbackRef][0];
      && Agree(r.tree(g.base), r.tree(parent), true)
      && Agree(r.tree(head), r.tree(g.rollbackRef), true)
      && forall path :: !IsAuditPath(path, true) ==>
           (Blobs(r.tree(g.base), path) != Blobs(r.tree(head), path) <==>
            Blobs(r.tree(parent), path) != Blobs(r.tree(g.rollbackRef), path))
    ensures forall path :: Blobs(r.tree(g.base), path) != Blobs(r.tree(head), path) && IsProtected(path, patterns) ==>
              g.review.Some? && verified(g.review.value)
  {
    hide IsAuditPath, IsProtected, GitLaws, MergeTree, ChangedPaths, AuditOnly, DiffPaths, Ancestors;
    assert Acyclic(r) by { LawsAreAcyclic(r); }
    AcceptedIffBaseIsParent(r, g.rollbackRef, g.base, g.head);
    AuditOnlyRange(r, g.rollbackRef, g.head, true, g.rollbackRef);
    AuditOnlyRange(r, g.head, head, false, g.head);
    MoreAudit(r.tree(g.head), r.tree(head));
    BaseIsMergeBase(r, g, head);
    forall path | Blobs(r.tree(g.base), path) != Blobs(r.tree(head), path) && IsProtected(path, patterns)
      ensures path in ProtectedChanges(r, g.base, head, patterns)
    {}
  }

  lemma LawsAreAcyclic(r: Repo)
    requires GitLaws(r)
    ensures Acyclic(r)
  {}

  lemma MoreAudit(a: Tree, b: Tree)
    requires Agree(a, b, false)
    ensures Agree(a, b, true)
  {}

  lemma BaseIsMergeBase(r: Repo, g: Gate, head: Commit)
    requires GitLaws(r) && g.head in r.parents && g.base in r.parents && g.rollbackRef in r.parents && head in r.parents
    requires g.base in Ancestors(r, g.rollbackRef) && g.rollbackRef in Ancestors(r, g.head) && AuditOnly(r, g.head, head, false)
    ensures forall path :: Blobs(r.tree(g.base), path) != Blobs(r.tree(head), path) ==>
              ChangedPaths(r, g.base, head).Some? && path in ChangedPaths(r, g.base, head).value
  {
    hide DiffNames, DiffPaths;
    AncestorsTransitive(r, head, g.head, g.rollbackRef);
    AncestorsTransitive(r, head, g.rollbackRef, g.base);
    DiffPathsAre(r, g.base, head);
  }
}
