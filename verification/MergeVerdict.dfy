/** Exactly when the merge gate (src/sddgov/merge_gate.py) says MERGE_READY, in terms of the commit graph,
    the paths Git's diffs name, and the text of paths and patterns. */
module MergeVerdict {
  import opened Common
  import opened MergeGate

  // ---------------------------------------------------------------- paths and patterns

  /** The gate's own record, a review receipt, or, where that counts, evidence. */
  ghost predicate Audit(path: string, includeEvidence: bool) {
    || path == ".sddgov/merge-gate.json"
    || (exists rest: string :: path == ".sddgov/reviews/" + rest)
    || (includeEvidence && exists rest: string :: path == "evidence/" + rest)
  }

  /** A pattern that ends in a slash covers whatever lies below it, any other the path of its name. */
  ghost predicate Covers(pattern: string, path: string) {
    || (exists d: string, rest: string :: pattern == d + "/" && path == d + "/" + rest)
    || (path == pattern && forall d: string :: pattern != d + "/")
  }

  lemma PrefixIff(prefix: string, path: string)
    ensures prefix <= path <==> exists rest: string :: path == prefix + rest
  {
    if prefix <= path {
      assert path == prefix + path[|prefix|..];
    }
  }

  lemma AuditIff(path: string, includeEvidence: bool)
    ensures IsAuditPath(path, includeEvidence) <==> Audit(path, includeEvidence)
  {
    PrefixIff(".sddgov/reviews/", path);
    PrefixIff("evidence/", path);
  }

  lemma SlashIff(pattern: string)
    ensures (pattern != "" && pattern[|pattern| - 1] == '/') <==> exists d: string :: pattern == d + "/"
  {
    if pattern != "" && pattern[|pattern| - 1] == '/' {
      assert pattern == pattern[..|pattern| - 1] + "/";
    }
  }

  lemma CoversIff(pattern: string, path: string)
    ensures Guards(pattern, path) <==> Covers(pattern, path)
  {
    SlashIff(pattern);
    PrefixIff(pattern, path);
    if pattern != "" && pattern[|pattern| - 1] == '/' && pattern <= path {
      var d :| pattern == d + "/";
      assert path == d + "/" + path[|pattern|..];
    }
    if d: string, rest: string :| pattern == d + "/" && path == d + "/" + rest {
      assert path == pattern + rest;
    }
  }

  ghost predicate Protected(path: string, patterns: seq<string>) {
    exists k :: 0 <= k < |patterns| && Covers(patterns[k], path)
  }

  lemma ProtectedIff(path: string, patterns: seq<string>)
    ensures IsProtected(path, patterns) <==> Protected(path, patterns)
  {
    hide Guards, Covers;
    forall k | 0 <= k < |patterns|
      ensures Guards(patterns[k], path) <==> Covers(patterns[k], path)
    {
      CoversIff(patterns[k], path);
    }
  }

  // ---------------------------------------------------------------- what Git prints of a change

  /** A path added, changed or deleted, or one renamed or copied to another. */
  datatype Change = Changed(status: string, path: string) | Moved(status: string, from: string, to: string)

  predicate IsChange(c: Change) {
    && c.status != "" && '\0' !in c.status
    && match c
       case Changed(status, path) => status[0] !in {'R', 'C'} && '\0' !in path
       case Moved(status, from, to) => status[0] in {'R', 'C'} && '\0' !in from && '\0' !in to
  }

  function PrintedOne(c: Change): string {
    match c
    case Changed(status, path) => status + "\0" + path + "\0"
    case Moved(status, from, to) => status + "\0" + from + "\0" + to + "\0"
  }

  function TouchedBy(c: Change): set<string> {
    match c
    case Changed(_, path) => {path}
    case Moved(_, from, to) => {from, to}
  }

  function Printed(changes: seq<Change>): string {
    if changes == [] then "" else PrintedOne(changes[0]) + Printed(changes[1..])
  }

  function Touched(changes: seq<Change>): set<string> {
    if changes == [] then {} else TouchedBy(changes[0]) + Touched(changes[1..])
  }

  function AsRecord(c: Change): NameStatus {
    match c
    case Changed(status, path) => NameStatus(status, [path])
    case Moved(status, from, to) => NameStatus(status, [from, to])
  }

  function AsRecords(changes: seq<Change>): (rs: seq<NameStatus>)
    ensures |rs| == |changes|
  {
    seq(|changes|, k requires 0 <= k < |changes| => AsRecord(changes[k]))
  }

  lemma TerminatedFirst(field: string, rest: seq<string>)
    ensures Terminated([field] + rest) == field + "\0" + Terminated(rest)
  {
    assert ([field] + rest)[1..] == rest;
  }

  lemma OneIs(c: Change)
    ensures Terminated([AsRecord(c).status] + AsRecord(c).paths) == PrintedOne(c) && Elements(AsRecord(c).paths) == TouchedBy(c)
  {
    hide Terminated;
    NothingPrinted();
    TerminatedFirst(c.status, AsRecord(c).paths);
    match c
    case Changed(status, path) =>
      TerminatedFirst(path, []);
      assert [path] + [] == [path] && status + "\0" + (path + "\0" + "") == PrintedOne(c);
    case Moved(status, from, to) =>
      TerminatedFirst(from, [to]);
      TerminatedFirst(to, []);
      assert [from] + [to] == [from, to] && [to] + [] == [to];
      assert status + "\0" + (from + "\0" + (to + "\0" + "")) == PrintedOne(c);
  }

  lemma {:induction false} PrintedIs(changes: seq<Change>)
    ensures Terminated(FieldsOf(AsRecords(changes))) == Printed(changes) && PathsOf(AsRecords(changes)) == Touched(changes)
    decreases |changes|
  {
    hide Terminated, PrintedOne, TouchedBy, Elements;
    if changes == [] {
      NothingPrinted();
    } else {
      var rs := AsRecords(changes);
      PrintedIs(changes[1..]);
      assert rs[1..] == AsRecords(changes[1..]);
      OneIs(changes[0]);
      TerminatedAdds([rs[0].status] + rs[0].paths, FieldsOf(rs[1..]));
    }
  }

  lemma NothingPrinted()
    ensures Terminated([]) == ""
  {}

  lemma {:induction false} TerminatedAdds(a: seq<string>, b: seq<string>)
    ensures Terminated(a + b) == Terminated(a) + Terminated(b)
    decreases |a|
  {
    if a == [] {
      assert a + b == b;
    } else {
      TerminatedAdds(a[1..], b);
      assert (a + b)[1..] == a[1..] + b;
    }
  }

  /** Parsing what Git prints of any changes finds exactly the paths they touch: one, or both of a move. */
  lemma ChangesRoundTrip(changes: seq<Change>)
    requires forall k :: 0 <= k < |changes| ==> IsChange(changes[k])
    ensures PathsIn(Fields(Printed(changes))) == Some(Touched(changes))
  {
    hide PathsIn, Fields, Printed, Touched, PathsOf, FieldsOf, Terminated;
    PrintedIs(changes);
    forall k | 0 <= k < |changes| ensures ValidStatus(AsRecords(changes)[k]) {
      assert IsChange(changes[k]);
    }
    OutputRoundTrip(AsRecords(changes));
  }

  // ---------------------------------------------------------------- what the checks come to

  /** A diff of two commits names this path. */
  ghost predicate Named(r: Repo, a: Commit, b: Commit, path: string) {
    path in PathsOf(r.records(a, b))
  }

  /** Every commit after `start` and up to `end` has parents, and its diff with each of them names audit
      paths only. */
  ghost predicate OnlyAudit(r: Repo, start: Commit, end: Commit, ev: bool)
    requires Acyclic(r) && start in r.parents && end in r.parents
  {
    && start in Ancestors(r, end)
    && forall c :: c in Ancestors(r, end) && c !in Ancestors(r, start) ==>
         && c in r.parents && r.parents[c] != []
         && forall k, path :: 0 <= k < |r.parents[c]| && Named(r, r.parents[c][k], c, path) ==> Audit(path, ev)
  }

  lemma EdgeIff(r: Repo, parent: Commit, c: Commit, ev: bool)
    requires GitLaws(r)
    ensures EdgeIsAudit(r, parent, c, ev) <==> forall path :: Named(r, parent, c, path) ==> Audit(path, ev)
  {
    hide DiffPaths, GitLaws, IsAuditPath, Audit, PathsOf;
    DiffPathsAre(r, parent, c);
    forall path: string
      ensures IsAuditPath(path, ev) <==> Audit(path, ev)
    {
      AuditIff(path, ev);
    }
  }

  lemma CommitIff(r: Repo, c: Commit, ev: bool)
    requires GitLaws(r) && c in r.parents
    ensures CommitIsAudit(r, c, ev) <==>
            && r.parents[c] != []
            && forall k, path :: 0 <= k < |r.parents[c]| && Named(r, r.parents[c][k], c, path) ==> Audit(path, ev)
  {
    hide GitLaws, EdgeIsAudit, Named, Audit;
    forall k | 0 <= k < |r.parents[c]|
      ensures EdgeIsAudit(r, r.parents[c][k], c, ev) <==> forall path :: Named(r, r.parents[c][k], c, path) ==> Audit(path, ev)
    {
      EdgeIff(r, r.parents[c][k], c, ev);
    }
  }

  lemma OnlyAuditIff(r: Repo, start: Commit, end: Commit, ev: bool)
    requires GitLaws(r) && Acyclic(r) && start in r.parents && end in r.parents
    ensures AuditOnly(r, start, end, ev) <==> OnlyAudit(r, start, end, ev)
  {
    hide GitLaws, CommitIsAudit, Named, Audit, Ancestors, Acyclic;
    forall c | c in Ancestors(r, end) && c !in Ancestors(r, start)
      ensures c in r.parents
      ensures CommitIsAudit(r, c, ev) <==>
              && r.parents[c] != []
              && forall k, path :: 0 <= k < |r.parents[c]| && Named(r, r.parents[c][k], c, path) ==> Audit(path, ev)
    {
      AncestorsKnown(r, end, c);
      CommitIff(r, c, ev);
    }
  }

  /** The declared rollback commit changes no audit path itself, and only audit paths changed since. */
  ghost predicate OneCommit(r: Repo, ref: Commit, head: Commit)
    requires Acyclic(r) && ref in r.parents && head in r.parents
  {
    && |r.parents[ref]| == 1
    && (forall path :: Named(r, r.parents[ref][0], ref, path) ==> !Audit(path, true))
    && OnlyAudit(r, ref, head, true)
  }

  lemma OneCommitIff(r: Repo, ref: Commit, head: Commit)
    requires GitLaws(r) && Acyclic(r) && ref in r.parents && head in r.parents
    ensures Revertible(r, ref, head) <==> OneCommit(r, ref, head)
  {
    hide AuditOnly, OnlyAudit, DiffPaths, IsAuditPath, Audit, PathsOf;
    OnlyAuditIff(r, ref, head, true);
    if |r.parents[ref]| == 1 {
      var p := r.parents[ref][0];
      ParentIsAncestor(r, ref, p);
      DiffPathsAre(r, p, ref);
      forall path: string
        ensures IsAuditPath(path, true) <==> Audit(path, true)
      {
        AuditIff(path, true);
      }
    }
  }

  /** Off the audit and evidence paths the two trees are the same. */
  ghost predicate SameBut(a: Tree, b: Tree) {
    forall path :: !Audit(path, true) ==> Blobs(a, path) == Blobs(b, path)
  }

  lemma SameButIff(a: Tree, b: Tree)
    ensures Agree(a, b, true) <==> SameBut(a, b)
  {
    hide IsAuditPath, Audit, Blobs;
    forall path: string
      ensures IsAuditPath(path, true) <==> Audit(path, true)
    {
      AuditIff(path, true);
    }
  }

  /** A protected path is named by the diff from Base to the merged Head. */
  ghost predicate TouchesProtected(r: Repo, base: Commit, head: Commit, patterns: seq<string>) {
    exists path :: Named(r, base, head, path) && Protected(path, patterns)
  }

  lemma TouchesIff(r: Repo, base: Commit, head: Commit, patterns: seq<string>)
    requires GitLaws(r) && base in r.parents && head in r.parents && Acyclic(r) && base in Ancestors(r, head)
    ensures ProtectedChanges(r, base, head, patterns) != {} <==> TouchesProtected(r, base, head, patterns)
  {
    hide DiffPaths, IsProtected, Protected, PathsOf, Acyclic, DiffNames;
    assert r.mergeBase(base, head) == base;
    DiffPathsAre(r, base, head);
    forall path: string
      ensures IsProtected(path, patterns) <==> Protected(path, patterns)
    {
      ProtectedIff(path, patterns);
    }
    if path :| Named(r, base, head, path) && Protected(path, patterns) {
      assert path in ProtectedChanges(r, base, head, patterns);
    }
    if ProtectedChanges(r, base, head, patterns) != {} {
      var path :| path in ProtectedChanges(r, base, head, patterns);
      assert Named(r, base, head, path) && Protected(path, patterns);
    }
  }

  // ---------------------------------------------------------------- the verdict

  /** Exactly when a candidate is ready: since the reviewed Head only the gate's records and receipts
      changed; the declared rollback commit lies between Base and that Head, has one parent and changes no
      audit path, and only audit paths changed since; Base is that parent off those paths; and there is a
      verified receipt if a protected path changed, and none if not. */
  lemma MergeReadyIff(r: Repo, g: Gate, head: Commit, patterns: seq<string>, verified: string -> bool)
    requires GitLaws(r) && Acyclic(r) && g.head in r.parents && g.base in r.parents && g.rollbackRef in r.parents && head in r.parents
    ensures VerifyMerge(r, g, head, patterns, verified) == MergeReady <==>
            && OnlyAudit(r, g.head, head, false)
            && g.rollbackRef != g.base && g.base in Ancestors(r, g.rollbackRef) && g.rollbackRef in Ancestors(r, g.head)
            && OneCommit(r, g.rollbackRef, g.head)
            && SameBut(r.tree(g.base), r.tree(r.parents[g.rollbackRef][0]))
            && (if TouchesProtected(r, g.base, head, patterns)
                then g.review.Some? && g.review.value != "" && verified(g.review.value)
                else g.review.None?)
  {
    hide AuditOnly, OnlyAudit, OneCommit, Revertible, MergeTree, SameBut, Agree, ProtectedChanges, TouchesProtected, Acyclic,
         Ancestors, GitLaws;
    OnlyAuditIff(r, g.head, head, false);
    OneCommitIff(r, g.rollbackRef, g.head);
    if Revertible(r, g.rollbackRef, g.head) {
      assert |r.parents[g.rollbackRef]| == 1 by { HasOneParent(r, g.rollbackRef, g.head); }
      AcceptedIffBaseIsParent(r, g.rollbackRef, g.base, g.head);
      SameButIff(r.tree(g.base), r.tree(r.parents[g.rollbackRef][0]));
    }
    if AuditOnly(r, g.head, head, false) && g.base in Ancestors(r, g.rollbackRef) && g.rollbackRef in Ancestors(r, g.head) {
      assert g.head in Ancestors(r, head) by { StartIsAncestor(r, g.head, head); }
      AncestorsTransitive(r, head, g.head, g.rollbackRef);
      AncestorsTransitive(r, head, g.rollbackRef, g.base);
      TouchesIff(r, g.base, head, patterns);
    }
  }

  lemma HasOneParent(r: Repo, ref: Commit, head: Commit)
    requires Acyclic(r) && ref in r.parents && head in r.parents && (Revertible(r, ref, head) || OneCommit(r, ref, head))
    ensures |r.parents[ref]| == 1
  {}

  lemma StartIsAncestor(r: Repo, start: Commit, end: Commit)
    requires Acyclic(r) && start in r.parents && end in r.parents && AuditOnly(r, start, end, false)
    ensures start in Ancestors(r, end)
  {}

  /** A change below a protected directory, wherever it lies, is not ready without a verified receipt. */
  lemma DirectoryIsReviewed(r: Repo, g: Gate, head: Commit, patterns: seq<string>, verified: string -> bool, d: string, rest: string)
    requires GitLaws(r) && Acyclic(r) && g.head in r.parents && g.base in r.parents && g.rollbackRef in r.parents && head in r.parents
    requires VerifyMerge(r, g, head, patterns, verified) == MergeReady
    requires (d + "/") in patterns && Blobs(r.tree(g.base), d + "/" + rest) != Blobs(r.tree(head), d + "/" + rest)
    ensures g.review.Some? && g.review.value != "" && verified(g.review.value)
  {
    hide VerifyMerge, GitLaws, Acyclic, Ancestors;
    var k :| 0 <= k < |patterns| && patterns[k] == d + "/";
    assert Covers(patterns[k], d + "/" + rest);
    ProtectedIsReviewed(r, g, head, patterns, verified, d + "/" + rest);
  }

  /** Nor is a change of a protected file. */
  lemma FileIsReviewed(r: Repo, g: Gate, head: Commit, patterns: seq<string>, verified: string -> bool, path: string)
    requires GitLaws(r) && Acyclic(r) && g.head in r.parents && g.base in r.parents && g.rollbackRef in r.parents && head in r.parents
    requires VerifyMerge(r, g, head, patterns, verified) == MergeReady
    requires path in patterns && (forall d: string :: path != d + "/") && Blobs(r.tree(g.base), path) != Blobs(r.tree(head), path)
    ensures g.review.Some? && g.review.value != "" && verified(g.review.value)
  {
    hide VerifyMerge, GitLaws, Acyclic, Ancestors;
    var k :| 0 <= k < |patterns| && patterns[k] == path;
    assert Covers(patterns[k], path);
    ProtectedIsReviewed(r, g, head, patterns, verified, path);
  }

  lemma ProtectedIsReviewed(r: Repo, g: Gate, head: Commit, patterns: seq<string>, verified: string -> bool, path: string)
    requires GitLaws(r) && Acyclic(r) && g.head in r.parents && g.base in r.parents && g.rollbackRef in r.parents && head in r.parents
    requires VerifyMerge(r, g, head, patterns, verified) == MergeReady
    requires Protected(path, patterns) && Blobs(r.tree(g.base), path) != Blobs(r.tree(head), path)
    ensures g.review.Some? && g.review.value != "" && verified(g.review.value)
  {
    hide VerifyMerge, OnlyAudit, OneCommit, SameBut, Protected, Acyclic, Ancestors, GitLaws;
    MergeReadyIff(r, g, head, patterns, verified);
    assert DiffNames(r, g.base, head) by { LawsNameDiffs(r, g.base, head); }
    assert Named(r, g.base, head, path);
  }

  lemma LawsNameDiffs(r: Repo, a: Commit, b: Commit)
    requires GitLaws(r)
    ensures DiffNames(r, a, b)
  {
    assert r.records(a, b) == r.records(a, b);
  }

  /** What is then merged: off the audit and evidence paths exactly the change of that one commit. */
  lemma ReadyIsOneCommit(r: Repo, g: Gate, head: Commit, patterns: seq<string>, verified: string -> bool, path: string)
    requires GitLaws(r) && Acyclic(r) && g.head in r.parents && g.base in r.parents && g.rollbackRef in r.parents && head in r.parents
    requires VerifyMerge(r, g, head, patterns, verified) == MergeReady && !Audit(path, true)
    ensures |r.parents[g.rollbackRef]| == 1
    ensures
      var parent := r.parents[g.rollbackRef][0];
      && Blobs(r.tree(g.base), path) == Blobs(r.tree(parent), path)
      && Blobs(r.tree(head), path) == Blobs(r.tree(g.rollbackRef), path)
  {
    hide VerifyMerge, GitLaws, Acyclic, Ancestors, Audit, IsAuditPath;
    AuditIff(path, true);
    MergeReadyMeans(r, g, head, patterns, verified);
  }
}
