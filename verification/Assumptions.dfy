/** `_verified_assumptions_digest` (src/sddgov/autonomy.py): are the files an owner's product approval
    rests on still those it names? Each is read through one call-wide snapshot and compared with its
    signed digest, and the snapshot is looked at again before the answer counts. */
module Assumptions {
  import opened Common
  import opened Snapshot

  const MAX_ASSUMPTION_BYTES: nat := 1024 * 1024

  /** One signed row: a path below the root, and the digest of its file. */
  datatype Signed = Signed(parts: seq<string>, sha: Digest)

  predicate DistinctPaths(rows: seq<Signed>) {
    forall j, k :: 0 <= j < k < |rows| ==> rows[j].parts != rows[k].parts
  }

  /** In this world the row's path leads to a file that is safe to read and has the signed digest. */
  ghost predicate Intact(w: World, root: Dir, row: Signed) {
    Legible(w, root, row.parts, MAX_ASSUMPTION_BYTES, false, row.sha.preimage)
  }

  /** At this moment the row's file, reached from the root through directories each seen in its place since,
      was a regular file with one link and the signed digest. */
  ghost predicate Witnessed(h: History, root: Dir, row: Signed, now: nat, until: nat) {
    exists r: Record ::
      && Held(h, now, r) && r.parts == row.parts && Sha256(r.raw) == row.sha
      && FileOk(h(now), r.inode, MAX_ASSUMPTION_BYTES, false)
      && Reached(h, root, Way(r), r.dirs, now, until)
  }

  /** The loop over the signed rows, and the end of the snapshot. If it answers yes, there was one instant
      at which every file was as signed, whatever other processes did; and while nothing changes it answers
      yes exactly if the paths are different and every file is as signed. */
  method VerifyAssumptions(h: History, when: nat -> nat, grain: nat -> nat, top: Dir, path: seq<string>, root: Dir, rows: seq<Signed>)
    returns (ok: bool)
    requires Lawful(h) && Ordered(when)
    ensures ok ==> exists now: nat, until: nat :: when(0) <= now <= until && AllWitnessed(h, root, rows, now, until)
    ensures Still(h, when(0)) ==>
              (ok <==> && rows != [] && DistinctPaths(rows) && RootStands(h(when(0)), top, path, root)
                       && forall k :: 0 <= k < |rows| ==> Intact(h(when(0)), root, rows[k]))
  {
    hide Lawful, Ordered, Still, Stands, Held, RootStands, Reads, FileOk, Legible, Leads, Witnessed, Collected;
    if rows == [] {
      return false;
    }
    ghost var w0 := h(when(0));
    var snapshot := new FileSetSnapshot(h, when, grain, top, path, root, false);
    var k := 0;
    while k < |rows|
      invariant 0 <= k <= |rows| && snapshot.Valid() && fresh(snapshot) && Fixed(snapshot, h, when, top, path, root)
      invariant Holding(snapshot.records, rows[..k]) && DistinctPaths(rows[..k])
      invariant Still(h, when(0)) ==> snapshot.AllStand(w0)
      invariant Still(h, when(0)) ==> forall j :: 0 <= j < k ==> Intact(w0, root, rows[j])
    {
      if exists j :: 0 <= j < k && rows[j].parts == rows[k].parts {
        return false;
      }
      Later(when, 0, snapshot.calls);
      StillAt(h, when(0), when(snapshot.calls));
      ghost var before := snapshot.records;
      Unread(before, rows, k);
      var raw := snapshot.Read(rows[k].parts, MAX_ASSUMPTION_BYTES);
      IntactIff(w0, root, rows[k], raw);
      if raw.None? || Sha256(raw.value) != rows[k].sha {
        return false;
      }
      Holds(before, snapshot.records, rows, k);
      k := k + 1;
    }
    assert rows[..k] == rows;
    Later(when, 0, snapshot.calls);
    StillAt(h, when(0), when(snapshot.calls));
    ghost var now := snapshot.calls;
    ok := snapshot.Revalidate();
    if ok {
      Later(when, now, snapshot.calls);
      AreWitnessed(snapshot, rows, when(now), when(snapshot.calls));
    }
  }

  /** The snapshot is still the one made for this call. */
  ghost predicate Fixed(s: FileSetSnapshot, h: History, when: nat -> nat, top: Dir, path: seq<string>, root: Dir) {
    s.h == h && s.when == when && s.top == top && s.path == path && s.root == root && !s.requireProtected
  }

  /** The records are of the rows, in order, and have the signed digests. */
  predicate Holding(rs: seq<Record>, rows: seq<Signed>) {
    && |rs| == |rows|
    && forall k :: 0 <= k < |rs| ==> rs[k].parts == rows[k].parts && Sha256(rs[k].raw) == rows[k].sha && rs[k].max == MAX_ASSUMPTION_BYTES
  }

  lemma Unread(rs: seq<Record>, rows: seq<Signed>, k: nat)
    requires k < |rows| && Holding(rs, rows[..k]) && forall j :: 0 <= j < k ==> rows[j].parts != rows[k].parts
    ensures forall j :: 0 <= j < |rs| ==> rs[j].parts != rows[k].parts
  {}

  lemma Holds(before: seq<Record>, after: seq<Record>, rows: seq<Signed>, k: nat)
    requires k < |rows| && Holding(before, rows[..k]) && |after| == k + 1 && after[..k] == before
    requires after[k].parts == rows[k].parts && Sha256(after[k].raw) == rows[k].sha && after[k].max == MAX_ASSUMPTION_BYTES
    ensures Holding(after, rows[..k + 1])
  {
    forall j | 0 <= j < k
      ensures after[j] == before[j] && rows[..k][j] == rows[j]
    {
      assert after[..k][j] == after[j];
    }
  }

  lemma IntactIff(w: World, root: Dir, row: Signed, raw: Option<Bytes>)
    ensures Reads(w, root, row.parts, MAX_ASSUMPTION_BYTES, false, raw) ==>
              (Intact(w, root, row) <==> raw.Some? && Sha256(raw.value) == row.sha)
  {
    hide Follows, FileOk, SafePart;
    if Reads(w, root, row.parts, MAX_ASSUMPTION_BYTES, false, raw) && raw.Some? && Intact(w, root, row) {
      OneContent(w, root, row.parts, MAX_ASSUMPTION_BYTES, false, raw.value, row.sha.preimage);
    }
  }

  ghost predicate AllWitnessed(h: History, root: Dir, rows: seq<Signed>, now: nat, until: nat) {
    forall k :: 0 <= k < |rows| ==> Witnessed(h, root, rows[k], now, until)
  }

  lemma AreWitnessed(s: FileSetSnapshot, rows: seq<Signed>, now: nat, until: nat)
    requires Holding(s.records, rows) && !s.requireProtected
    requires forall k :: 0 <= k < |rows| ==>
               && Held(s.h, now, s.records[k]) && FileOk(s.h(now), s.records[k].inode, s.records[k].max, false)
               && s.InPlace(s.records[k], now, until)
    ensures AllWitnessed(s.h, s.root, rows, now, until)
  {
    forall k | 0 <= k < |rows|
      ensures Witnessed(s.h, s.root, rows[k], now, until)
    {
      var r := s.records[k];
      assert Held(s.h, now, r) && s.InPlace(r, now, until);
    }
  }
}
