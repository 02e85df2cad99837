/** `FileSetSnapshot` (src/sddgov/fs_security.py): read a set of files, then look at all of them
    again, so that the bytes returned were all in place at one instant.

    Other processes are an arbitrary history of the filesystem, one world per moment. The one law
    assumed of it is the kernel's: an inode's change time never runs back, and no change of its
    bytes, its metadata or its links leaves the change time as it was. The k-th system call of the
    modelled code happens at the moment `when(k)`. */
module Snapshot {
  import opened Common

  type Inode = nat
  /** A directory the code holds open, named by its inode. */
  type Dir = nat

  datatype Kind = Regular | Directory | Other

  datatype Meta = Meta(kind: Kind, protected: bool, nlink: nat, size: nat, mtime: int, ctime: nat)

  datatype Entry = Entry(dir: Dir, name: string)

  datatype World = World(entries: map<Entry, Inode>, meta: Inode -> Meta, bytes: Inode -> Bytes)

  type History = nat -> World

  function Links(w: World, i: Inode): set<Entry> {
    set e | e in w.entries && w.entries[e] == i
  }

  ghost predicate SameInode(a: World, b: World, i: Inode) {
    a.meta(i) == b.meta(i) && a.bytes(i) == b.bytes(i) && Links(a, i) == Links(b, i)
  }

  ghost predicate CtimeStep(h: History, t: nat, i: Inode) {
    var before, after := h(t).meta(i).ctime, h(t + 1).meta(i).ctime;
    before <= after && (before == after ==> SameInode(h(t), h(t + 1), i))
  }

  ghost predicate Lawful(h: History) {
    forall t: nat, i: Inode :: CtimeStep(h, t, i)
  }

  ghost predicate Ordered(when: nat -> nat) {
    forall k: nat :: when(k) <= when(k + 1)
  }

  lemma {:induction false} Later(when: nat -> nat, a: nat, b: nat)
    requires Ordered(when) && a <= b
    ensures when(a) <= when(b)
    decreases b - a
  {
    if a < b {
      assert when(a) <= when(a + 1);
      Later(when, a + 1, b);
    }
  }

  lemma {:induction false} CtimeRises(h: History, i: Inode, a: nat, b: nat)
    requires Lawful(h) && a <= b
    ensures h(a).meta(i).ctime <= h(b).meta(i).ctime
    decreases b - a
  {
    if a < b {
      assert CtimeStep(h, a, i);
      CtimeRises(h, i, a + 1, b);
    }
  }

  /** Equal change times at two moments: nothing about the inode changed at any moment between. */
  lemma {:induction false} Unchanged(h: History, i: Inode, a: nat, m: nat, b: nat)
    requires Lawful(h) && a <= m <= b && h(a).meta(i).ctime == h(b).meta(i).ctime
    ensures SameInode(h(a), h(m), i)
    decreases m - a
  {
    if a < m {
      assert CtimeStep(h, a, i);
      CtimeRises(h, i, a + 1, b);
      Unchanged(h, i, a + 1, m, b);
    }
  }

  // ---------------------------------------------------------------- records

  /** One file read: where it was found, what it held, and its metadata then. */
  datatype Record = Record(parts: seq<string>, dirs: seq<Dir>, inode: Inode, snapshot: Meta, raw: Bytes, max: nat)

  predicate WellFormed(r: Record) {
    |r.parts| > 0 && |r.dirs| == |r.parts|
  }

  function PlaceOf(r: Record): Entry
    requires WellFormed(r)
  {
    Entry(r.dirs[|r.dirs| - 1], r.parts[|r.parts| - 1])
  }

  predicate At(w: World, r: Record)
    requires WellFormed(r)
  {
    PlaceOf(r) in w.entries && w.entries[PlaceOf(r)] == r.inode
  }

  /** At this moment the file, through its retained directory, held exactly the recorded bytes. */
  predicate Held(h: History, t: nat, r: Record) {
    WellFormed(r) && At(h(t), r) && h(t).bytes(r.inode) == r.raw
  }

  /** First collect: it was so at some moment, with this metadata. */
  ghost predicate Collected(h: History, r: Record, now: nat) {
    exists b: nat :: b <= now && Held(h, b, r) && h(b).meta(r.inode) == r.snapshot
  }

  lemma HeldIsCollected(h: History, r: Record, m: nat, now: nat)
    requires m <= now && Held(h, m, r) && h(m).meta(r.inode) == r.snapshot
    ensures Collected(h, r, now)
  {}

  /** Second collect: later the name still led to the inode, with the same metadata. */
  ghost predicate Confirmed(h: History, r: Record, now: nat) {
    WellFormed(r) && exists c: nat :: c >= now && At(h(c), r) && h(c).meta(r.inode) == r.snapshot
  }

  lemma HeldBetween(h: History, r: Record, now: nat)
    requires Lawful(h) && Collected(h, r, now) && Confirmed(h, r, now)
    ensures Held(h, now, r) && h(now).meta(r.inode) == r.snapshot
  {
    var b: nat :| b <= now && Held(h, b, r) && h(b).meta(r.inode) == r.snapshot;
    var c: nat :| c >= now && At(h(c), r) && h(c).meta(r.inode) == r.snapshot;
    Unchanged(h, r.inode, b, now, c);
    assert PlaceOf(r) in Links(h(b), r.inode);
  }

  /** Double collect: if every file was collected before an instant and confirmed after it, then at
      that one instant every file held its recorded bytes, whatever other processes did. */
  lemma DoubleCollect(h: History, rs: seq<Record>, now: nat)
    requires Lawful(h)
    requires forall k :: 0 <= k < |rs| ==> Collected(h, rs[k], now) && Confirmed(h, rs[k], now)
    ensures forall k :: 0 <= k < |rs| ==> Held(h, now, rs[k])
  {
    forall k | 0 <= k < |rs| ensures Held(h, now, rs[k]) {
      HeldBetween(h, rs[k], now);
    }
  }

  /** Neither collect alone is enough: two files, each read whole and never seen to change, that
      were at no moment both as read. */
  lemma SingleCollectIsNotEnough() returns (h: History, r: Record, q: Record)
    ensures Lawful(h)
    ensures Collected(h, r, 1) && Collected(h, q, 1)
    ensures forall t: nat :: !(Held(h, t, r) && Held(h, t, q))
  {
    var e0, e1 := Entry(0, "a"), Entry(0, "b");
    var m := (c: nat) => Meta(Regular, true, 1, 1, 0, c);
    var w0 := World(map[e0 := 0, e1 := 1], (i: Inode) => m(0), (i: Inode) => [0]);
    var w1 := World(map[e0 := 0, e1 := 1], (i: Inode) => m(1), (i: Inode) => [1]);
    h := (t: nat) => if t == 0 then w0 else w1;
    r := Record(["a"], [0], 0, m(0), [0], 1);
    q := Record(["b"], [0], 1, m(1), [1], 1);
    forall t: nat, i: Inode ensures CtimeStep(h, t, i) {}
    assert Held(h, 0, r) && Held(h, 1, q);
  }

  // ---------------------------------------------------------------- paths

  /** Some moment of an interval saw this directory at this entry. */
  ghost predicate Seen(h: History, e: Entry, d: Dir, from: nat, until: nat) {
    exists m: nat :: from <= m <= until && e in h(m).entries && h(m).entries[e] == d && h(m).meta(d).kind.Directory?
  }

  /** The directories a path leads through, each seen in the one before it during an interval. */
  ghost predicate Reached(h: History, start: Dir, path: seq<string>, dirs: seq<Dir>, from: nat, until: nat) {
    && |dirs| == |path| + 1 && dirs[0] == start
    && (forall k :: 0 <= k < |path| ==> Seen(h, Entry(dirs[k], path[k]), dirs[k + 1], from, until))
  }

  lemma SeenAt(h: History, e: Entry, m: nat, from: nat, until: nat)
    requires from <= m <= until && e in h(m).entries && h(m).meta(h(m).entries[e]).kind.Directory?
    ensures Seen(h, e, h(m).entries[e], from, until)
  {
  }

  lemma SeenWithin(h: History, e: Entry, d: Dir, from: nat, until: nat, start: nat, end: nat)
    requires Seen(h, e, d, from, until) && start <= from && until <= end
    ensures Seen(h, e, d, start, end)
  {
  }

  lemma ReachedWithin(h: History, top: Dir, path: seq<string>, dirs: seq<Dir>, from: nat, until: nat, start: nat, end: nat)
    requires Reached(h, top, path, dirs, from, until) && start <= from && until <= end
    ensures Reached(h, top, path, dirs, start, end)
  {
    hide Seen;
    forall k | 0 <= k < |path| ensures Seen(h, Entry(dirs[k], path[k]), dirs[k + 1], start, end) {
      SeenWithin(h, Entry(dirs[k], path[k]), dirs[k + 1], from, until, start, end);
    }
  }

  /** The directories on the way to a record's file, from the root. */
  function Way(r: Record): seq<string>
    requires WellFormed(r)
  {
    r.parts[..|r.parts| - 1]
  }

  /** A path led to this directory during an interval. */
  ghost predicate Leads(h: History, top: Dir, path: seq<string>, d: Dir, from: nat, until: nat) {
    exists dirs :: Reached(h, top, path, dirs, from, until) && dirs[|path|] == d
  }

  // ---------------------------------------------------------------- what one world shows

  /** In this world the path leads through these directories. */
  ghost predicate Follows(w: World, start: Dir, path: seq<string>, dirs: seq<Dir>) {
    && |dirs| == |path| + 1 && dirs[0] == start
    && forall k :: 0 <= k < |path| ==> OpensTo(w, dirs[k], path[k], dirs[k + 1])
  }

  predicate OpensTo(w: World, d: Dir, part: string, next: Dir) {
    Entry(d, part) in w.entries && w.entries[Entry(d, part)] == next && w.meta(next).kind.Directory?
  }

  /** One directory further. */
  lemma ReachedOn(h: History, start: Dir, path: seq<string>, dirs: seq<Dir>, k: nat, d: Dir, from: nat, m: nat, until: nat)
    requires k < |path| && Reached(h, start, path[..k], dirs, from, m) && from <= m <= until
    requires OpensTo(h(m), dirs[k], path[k], d)
    ensures Reached(h, start, path[..k + 1], dirs + [d], from, until)
  {
    hide Seen;
    ReachedWithin(h, start, path[..k], dirs, from, m, from, until);
    SeenAt(h, Entry(dirs[k], path[k]), m, from, until);
    var on, far := path[..k + 1], dirs + [d];
    forall j | 0 <= j < |on|
      ensures Seen(h, Entry(far[j], on[j]), far[j + 1], from, until)
    {
      if j < k {
        assert Seen(h, Entry(dirs[j], path[..k][j]), dirs[j + 1], from, until);
      }
    }
  }

  /** A path leads nowhere else. */
  lemma {:induction false} FollowsOnce(w: World, start: Dir, path: seq<string>, a: seq<Dir>, b: seq<Dir>, n: nat)
    requires Follows(w, start, path, a) && n <= |path| && |b| > n && b[0] == start
    requires forall k :: 0 <= k < n ==> OpensTo(w, b[k], path[k], b[k + 1])
    ensures a[n] == b[n]
    decreases n
  {
    if n > 0 {
      FollowsOnce(w, start, path, a, b, n - 1);
      assert OpensTo(w, a[n - 1], path[n - 1], a[n]) && OpensTo(w, b[n - 1], path[n - 1], b[n]);
    }
  }

  /** A regular file with one link, no longer than `max`, of the size its metadata says, and not
      writable by others where that is asked. */
  predicate FileOk(w: World, i: Inode, max: nat, requireProtected: bool) {
    var m := w.meta(i);
    && m.kind.Regular? && m.nlink == 1 && m.size == |w.bytes(i)| && m.size <= max
    && (requireProtected ==> m.protected)
  }

  /** In this world the path leads from the root, through directories, to such a file with these bytes. */
  ghost predicate Legible(w: World, root: Dir, parts: seq<string>, max: nat, requireProtected: bool, b: Bytes) {
    && parts != []
    && (forall part :: part in parts ==> part !in {"", ".", ".."} && '/' !in part && '\\' !in part && '\0' !in part)
    && exists dirs :: LegibleAt(w, root, parts, max, requireProtected, b, dirs)
  }

  ghost predicate LegibleAt(
    w: World, root: Dir, parts: seq<string>, max: nat, requireProtected: bool, b: Bytes, dirs: seq<Dir>)
    requires parts != []
  {
    && Follows(w, root, parts[..|parts| - 1], dirs)
    && var e := Entry(dirs[|parts| - 1], parts[|parts| - 1]);
       e in w.entries && FileOk(w, w.entries[e], max, requireProtected) && w.bytes(w.entries[e]) == b
  }

  /** From this moment on nothing changes. */
  ghost predicate Still(h: History, t: nat) {
    forall m: nat :: t <= m ==> h(m) == h(t)
  }

  lemma StillSteady(h: History, t: nat, i: Inode, from: nat, until: nat)
    requires Still(h, t) && t <= from
    ensures Steady(h, i, from, until, h(t).bytes(i))
  {}

  lemma StillAt(h: History, t: nat, m: nat)
    requires t <= m
    ensures Still(h, t) ==> h(m) == h(t) && Still(h, m)
  {}

  ghost predicate Leadable(w: World, start: Dir, path: seq<string>) {
    exists dirs :: Follows(w, start, path, dirs)
  }

  lemma GoesOn(w: World, start: Dir, path: seq<string>, opened_: seq<Dir>, k: nat, dirs: seq<Dir>)
    requires k < |path| && Follows(w, start, path[..k], opened_) && Follows(w, start, path, dirs)
    ensures OpensTo(w, opened_[k], path[k], dirs[k + 1])
  {
    forall j | 0 <= j < k
      ensures OpensTo(w, opened_[j], path[j], opened_[j + 1])
    {
      assert OpensTo(w, opened_[j], path[..k][j], opened_[j + 1]);
    }
    FollowsOnce(w, start, path, dirs, opened_, k);
    assert OpensTo(w, dirs[k], path[k], dirs[k + 1]);
  }

  lemma DeadEnd(w: World, start: Dir, path: seq<string>, opened_: seq<Dir>, k: nat)
    requires k < |path| && Follows(w, start, path[..k], opened_)
    requires forall d :: !OpensTo(w, opened_[k], path[k], d)
    ensures !Leadable(w, start, path)
  {
    if dirs :| Follows(w, start, path, dirs) {
      GoesOn(w, start, path, opened_, k, dirs);
    }
  }

  lemma NothingReached(h: History, start: Dir, path: seq<string>, now: nat)
    ensures Reached(h, start, path[..0], [start], now, now)
  {}

  lemma NoStep(w: World, start: Dir, path: seq<string>)
    ensures Follows(w, start, path[..0], [start])
  {}

  lemma IsLeadable(w: World, start: Dir, path: seq<string>, dirs: seq<Dir>)
    requires Follows(w, start, path, dirs)
    ensures Leadable(w, start, path)
  {}

  lemma OneStepOn(w: World, start: Dir, path: seq<string>, opened_: seq<Dir>, k: nat, d: Dir)
    requires k < |path| && Follows(w, start, path[..k], opened_) && OpensTo(w, opened_[k], path[k], d)
    ensures Follows(w, start, path[..k + 1], opened_ + [d])
  {
    forall j | 0 <= j < k + 1
      ensures OpensTo(w, (opened_ + [d])[j], path[..k + 1][j], (opened_ + [d])[j + 1])
    {
      if j < k {
        assert OpensTo(w, opened_[j], path[..k][j], opened_[j + 1]);
      }
    }
  }

  lemma SameWay(w: World, start: Dir, path: seq<string>, a: seq<Dir>, b: seq<Dir>)
    requires Follows(w, start, path, a) && Follows(w, start, path, b)
    ensures a == b
  {
    forall n | 0 <= n <= |path|
      ensures a[n] == b[n]
    {
      FollowsOnce(w, start, path, a, b, n);
    }
  }

  /** The world shows the record as it was made: the way, the name, the metadata and the bytes. */
  ghost predicate Stands(w: World, root: Dir, r: Record) {
    && WellFormed(r) && At(w, r) && w.meta(r.inode) == r.snapshot && w.bytes(r.inode) == r.raw
    && Follows(w, root, Way(r), r.dirs)
  }

  /** The root's own path leads to the root. */
  ghost predicate RootStands(w: World, top: Dir, path: seq<string>, root: Dir) {
    && (forall k :: 0 <= k < |path| ==> path[k] !in {"", ".", ".."})
    && exists dirs :: Follows(w, top, path, dirs) && dirs[|path|] == root
  }

  /** A path leads to one content. */
  lemma OneContent(w: World, root: Dir, parts: seq<string>, max: nat, requireProtected: bool, a: Bytes, b: Bytes)
    requires Legible(w, root, parts, max, requireProtected, a) && Legible(w, root, parts, max, requireProtected, b)
    ensures a == b
  {
    hide FileOk;
    var d :| LegibleAt(w, root, parts, max, requireProtected, a, d);
    var e :| LegibleAt(w, root, parts, max, requireProtected, b, e);
    SameWay(w, root, parts[..|parts| - 1], d, e);
  }

  /** What a first reading of a path returns while the world stands still. */
  ghost predicate Reads(w: World, root: Dir, parts: seq<string>, max: nat, requireProtected: bool, raw: Option<Bytes>) {
    match raw
    case None => forall b :: !Legible(w, root, parts, max, requireProtected, b)
    case Some(b) => Legible(w, root, parts, max, requireProtected, b)
  }

  lemma NotSafe(w: World, root: Dir, parts: seq<string>, max: nat, requireProtected: bool)
    requires parts == [] || exists k :: 0 <= k < |parts| && !SafePart(parts[k])
    ensures Reads(w, root, parts, max, requireProtected, None)
  {
    assert forall k :: 0 <= k < |parts| ==> parts[k] in parts;
  }

  lemma NotLed(w: World, root: Dir, parts: seq<string>, max: nat, requireProtected: bool)
    requires parts != [] && !Leadable(w, root, parts[..|parts| - 1])
    ensures Reads(w, root, parts, max, requireProtected, None)
  {
    hide Follows, FileOk;
  }

  lemma NotFetched(w: World, root: Dir, parts: seq<string>, max: nat, requireProtected: bool, dirs: seq<Dir>)
    requires parts != [] && |dirs| == |parts| && Follows(w, root, parts[..|parts| - 1], dirs)
    requires var e := Entry(dirs[|parts| - 1], parts[|parts| - 1]);
             e !in w.entries || !FileOk(w, w.entries[e], max, requireProtected)
    ensures Reads(w, root, parts, max, requireProtected, None)
  {
    forall b | Legible(w, root, parts, max, requireProtected, b)
      ensures false
    {
      var other :| LegibleAt(w, root, parts, max, requireProtected, b, other);
      SameWay(w, root, parts[..|parts| - 1], dirs, other);
    }
  }

  lemma WasFetched(w: World, root: Dir, parts: seq<string>, max: nat, requireProtected: bool, dirs: seq<Dir>, r: Record)
    requires parts != [] && (forall k :: 0 <= k < |parts| ==> SafePart(parts[k]))
    requires r.parts == parts && r.dirs == dirs && |dirs| == |parts| && Follows(w, root, parts[..|parts| - 1], dirs)
    requires At(w, r) && FileOk(w, r.inode, max, requireProtected) && w.meta(r.inode) == r.snapshot && w.bytes(r.inode) == r.raw
    ensures Reads(w, root, parts, max, requireProtected, Some(r.raw)) && Stands(w, root, r)
  {
    hide Follows, FileOk;
    assert LegibleAt(w, root, parts, max, requireProtected, r.raw, dirs);
  }

  // ---------------------------------------------------------------- reading a descriptor

  const CHUNK: nat := 1024 * 1024

  /** The inode's bytes are `b` at every moment of an interval. */
  ghost predicate Steady(h: History, i: Inode, from: nat, until: nat, b: Bytes) {
    forall m: nat :: from <= m <= until ==> h(m).bytes(i) == b
  }

  function Min(a: nat, b: nat): nat {
    if a <= b then a else b
  }

  predicate SafePart(part: string) {
    part != "" && part != "." && part != ".." && '\\' !in part && '\0' !in part && '/' !in part
  }

  class FileSetSnapshot {
    const h: History
    const when: nat -> nat
    /** how many bytes the k-th system call returns, if it is a read */
    const grain: nat -> nat
    /** the directory at the anchor of the root's path, and the path */
    const top: Dir
    const path: seq<string>
    const root: Dir
    const requireProtected: bool
    var calls: nat
    var records: seq<Record>

    constructor (h: History, when: nat -> nat, grain: nat -> nat, top: Dir, path: seq<string>, root: Dir, requireProtected: bool)
      requires Lawful(h) && Ordered(when)
      ensures Valid() && records == [] && calls == 0
      ensures this.h == h && this.when == when && this.top == top && this.path == path && this.root == root
      ensures this.requireProtected == requireProtected
    {
      this.h, this.when, this.grain, this.top, this.path, this.root, this.requireProtected := h, when, grain, top, path, root, requireProtected;
      calls, records := 0, [];
    }

    ghost predicate Valid()
      reads this
    {
      && Lawful(h) && Ordered(when)
      && (forall k :: 0 <= k < |records| ==> Collected(h, records[k], when(calls)) && FromRoot(records[k]) && Proper(records[k]))
      && (forall j, k :: 0 <= j < k < |records| ==> records[j].parts != records[k].parts)
    }

    /** What every record was checked for. */
    predicate Proper(r: Record) {
      && WellFormed(r) && (forall k :: 0 <= k < |r.parts| ==> SafePart(r.parts[k]))
      && r.snapshot.kind.Regular? && r.snapshot.nlink == 1 && r.snapshot.size == |r.raw| <= r.max
      && (requireProtected ==> r.snapshot.protected)
    }

    /** This world shows every record. */
    ghost predicate AllStand(w: World)
      reads this
    {
      forall k :: 0 <= k < |records| ==> Stands(w, root, records[k])
    }

    predicate FromRoot(r: Record) {
      WellFormed(r) && r.dirs[0] == root
    }

    method Look() returns (w: World)
      modifies this`calls
      ensures w == h(when(old(calls))) && calls == old(calls) + 1
    {
      w := h(when(calls));
      calls := calls + 1;
    }

    /** Read a descriptor to its end in pieces, giving up past `max` bytes. If the file did not
        change meanwhile, the pieces are the file. */
    method BoundedRead(i: Inode, max: nat) returns (raw: Option<Bytes>)
      requires Ordered(when)
      modifies this`calls
      ensures calls > old(calls)
      ensures raw.Some? ==> |raw.value| <= max
      ensures forall b :: Steady(h, i, when(old(calls)), when(calls), b) ==> raw == if |b| <= max then Some(b) else None
    {
      var chunks: Bytes := [];
      while true
        invariant calls >= old(calls) && |chunks| <= max
        invariant forall b {:trigger Steady(h, i, when(old(calls)), when(calls), b)} ::
          Steady(h, i, when(old(calls)), when(calls), b) ==> |chunks| <= |b| && chunks == b[..|chunks|]
        decreases max - |chunks|
      {
        var before := calls;
        var w := Look();
        Later(when, old(calls), before);
        assert when(before) <= when(calls);
        var left := w.bytes(i);
        assert forall b :: Steady(h, i, when(old(calls)), when(calls), b) ==>
                             left == b && Steady(h, i, when(old(calls)), when(before), b);
        if |left| <= |chunks| {
          return Some(chunks);
        }
        var limit := Min(Min(CHUNK, max + 1 - |chunks|), |left| - |chunks|);
        var n := if 1 <= grain(before) <= limit then grain(before) else limit;
        chunks := chunks + left[|chunks|..|chunks| + n];
        if |chunks| > max {
          return None;
        }
      }
    }

    /** Open each directory of a path through the one before it. */
    method Walk(start: Dir, parts: seq<string>) returns (dirs: Option<seq<Dir>>)
      requires Ordered(when)
      modifies this`calls
      ensures calls >= old(calls)
      ensures dirs.Some? ==> Reached(h, start, parts, dirs.value, when(old(calls)), when(calls))
      ensures Still(h, when(old(calls))) ==> (dirs.Some? <==> Leadable(h(when(old(calls))), start, parts))
      ensures Still(h, when(old(calls))) && dirs.Some? ==> Follows(h(when(old(calls))), start, parts, dirs.value)
    {
      hide Seen, Ordered, Follows, Leadable, Reached;
      ghost var began, w0 := calls, h(when(calls));
      assert Follows(w0, start, parts[..0], [start]) by { NoStep(w0, start, parts); }
      var opened_ := [start];
      var k := 0;
      assert Reached(h, start, parts[..0], [start], when(began), when(began)) by { NothingReached(h, start, parts, when(began)); }
      while k < |parts|
        invariant 0 <= k <= |parts| && |opened_| == k + 1 && calls >= began
        invariant Reached(h, start, parts[..k], opened_, when(began), when(calls))
        invariant Still(h, when(began)) ==> Follows(w0, start, parts[..k], opened_)
      {
        Later(when, began, calls);
        StillAt(h, when(began), when(calls));
        var w := Look();
        var e := Entry(opened_[k], parts[k]);
        if e !in w.entries || !w.meta(w.entries[e]).kind.Directory? {
          if Still(h, when(began)) {
            DeadEnd(w0, start, parts, opened_, k);
          }
          return None;
        }
        if Still(h, when(began)) {
          OneStepOn(w0, start, parts, opened_, k, w.entries[e]);
        }
        Later(when, calls - 1, calls);
        ReachedOn(h, start, parts, opened_, k, w.entries[e], when(began), when(calls - 1), when(calls));
        opened_ := opened_ + [w.entries[e]];
        k := k + 1;
      }
      assert parts[..k] == parts;
      if Still(h, when(began)) {
        IsLeadable(w0, start, parts, opened_);
      }
      return Some(opened_);
    }

    /** FileSetSnapshot.read. While nothing changes, a path not read before is read exactly if it leads to
        a file that is safe to read, and then its bytes are returned; in any history a path read before
        returns the same bytes, if they are no longer than asked for. */
    method Read(parts: seq<string>, max: nat) returns (raw: Option<Bytes>)
      requires Valid()
      modifies this
      ensures Valid() && calls >= old(calls)
      ensures |records| >= |old(records)|
      ensures forall k :: 0 <= k < |old(records)| ==> records[k] == old(records)[k].(max := records[k].max)
      ensures raw.Some? ==> |raw.value| <= max
      ensures raw.Some? ==> exists k :: 0 <= k < |records| && records[k].parts == parts && records[k].raw == raw.value
      ensures raw.Some? && (forall k :: 0 <= k < |old(records)| ==> old(records)[k].parts != parts) ==>
                && |records| == |old(records)| + 1 && records[..|old(records)|] == old(records)
                && records[|old(records)|].parts == parts && records[|old(records)|].raw == raw.value
                && records[|old(records)|].max == max
      ensures raw.None? ==> records == old(records)
      ensures forall k :: 0 <= k < |old(records)| && old(records)[k].parts == parts ==>
                raw == if |old(records)[k].raw| <= max then Some(old(records)[k].raw) else None
      ensures Still(h, when(old(calls))) && (forall k :: 0 <= k < |old(records)| ==> old(records)[k].parts != parts) ==>
                Reads(h(when(old(calls))), root, parts, max, requireProtected, raw)
      ensures Still(h, when(old(calls))) && old(AllStand(h(when(calls)))) ==> AllStand(h(when(old(calls))))
    {
      hide Collected, Lawful, Ordered, Proper, Stands, Reads, Still;
      if parts == [] || exists k :: 0 <= k < |parts| && !SafePart(parts[k]) {
        NotSafe(h(when(calls)), root, parts, max, requireProtected);
        SafeRecords(parts);
        return None;
      }
      var j := Recorded(parts);
      if j.Some? {
        raw := Reread(j.value, max);
        if |old(records)[j.value].raw| <= max {
          assert records[j.value].parts == parts;
          StillStand(h(when(calls)), old(records), j.value);
        }
      } else {
        raw := ReadNew(parts, max);
        if raw.Some? {
          assert records[|records| - 1].parts == parts;
        }
      }
    }

    lemma SafeRecords(parts: seq<string>)
      requires Valid() && (parts == [] || exists k :: 0 <= k < |parts| && !SafePart(parts[k]))
      ensures forall k :: 0 <= k < |records| ==> records[k].parts != parts
    {
      forall k | 0 <= k < |records|
        ensures records[k].parts != parts
      {
        assert Proper(records[k]);
      }
    }

    lemma StillStand(w: World, before: seq<Record>, j: nat)
      requires j < |before| == |records| && records == before[j := before[j].(max := records[j].max)]
      ensures (forall k :: 0 <= k < |before| ==> Stands(w, root, before[k])) ==> AllStand(w)
    {
      if forall k :: 0 <= k < |before| ==> Stands(w, root, before[k]) {
        forall k | 0 <= k < |records|
          ensures Stands(w, root, records[k])
        {
          assert Stands(w, root, before[k]);
        }
      }
    }

    /** The part of read that finds the path on record. */
    method Reread(j: nat, max: nat) returns (raw: Option<Bytes>)
      requires Valid() && j < |records|
      modifies this`records
      ensures Valid()
      ensures raw == if |old(records)[j].raw| <= max then Some(old(records)[j].raw) else None
      ensures |records| == |old(records)|
      ensures records == if raw.None? then old(records) else old(records)[j := old(records)[j].(max := records[j].max)]
    {
      hide Collected, Lawful, Ordered;
      var r := records[j];
      if |r.raw| > max {
        return None;
      }
      StaysCollected(h, r, Min(r.max, max), when(calls));
      assert Proper(r);
      records := records[j := r.(max := Min(r.max, max))];
      assert Proper(records[j]) && FromRoot(records[j]);
      return Some(r.raw);
    }

    /** The part that reads it for the first time. */
    method ReadNew(parts: seq<string>, max: nat) returns (raw: Option<Bytes>)
      requires Valid() && parts != [] && (forall k :: 0 <= k < |parts| ==> SafePart(parts[k]))
      requires forall k :: 0 <= k < |records| ==> records[k].parts != parts
      modifies this
      ensures Valid() && calls >= old(calls)
      ensures raw.None? ==> records == old(records)
      ensures raw.Some? ==> |raw.value| <= max && |records| == |old(records)| + 1 && records[..|old(records)|] == old(records)
      ensures raw.Some? ==> records[|old(records)|].parts == parts && records[|old(records)|].raw == raw.value
      ensures raw.Some? ==> records[|old(records)|].max == max
      ensures Still(h, when(old(calls))) ==> Reads(h(when(old(calls))), root, parts, max, requireProtected, raw)
      ensures Still(h, when(old(calls))) && raw.Some? ==> Stands(h(when(old(calls))), root, records[|old(records)|])
    {
      hide Collected, Lawful, Ordered, Follows, Leadable, FileOk, SafePart;
      ghost var w0, start := h(when(calls)), calls;
      var dirs := Walk(root, parts[..|parts| - 1]);
      Wait(old(calls));
      if dirs.None? {
        if Still(h, when(start)) {
          NotLed(w0, root, parts, max, requireProtected);
        }
        return None;
      }
      Later(when, start, calls);
      var r := Fetch(parts, dirs.value, max);
      Wait(old(calls));
      if r.None? {
        if Still(h, when(start)) {
          NotFetched(w0, root, parts, max, requireProtected, dirs.value);
        }
        return None;
      }
      records := records + [r.value];
      assert records[|records| - 1] == r.value;
      raw := Some(r.value.raw);
      if Still(h, when(start)) {
        assert Way(r.value) == parts[..|parts| - 1];
        WasFetched(w0, root, parts, max, requireProtected, dirs.value, r.value);
      }
    }

    /** Records stay collected as time passes. */
    lemma Wait(before: nat)
      requires Lawful(h) && Ordered(when) && before <= calls
      requires forall k :: 0 <= k < |records| ==> Collected(h, records[k], when(before)) && FromRoot(records[k]) && Proper(records[k])
      requires forall j, k :: 0 <= j < k < |records| ==> records[j].parts != records[k].parts
      ensures Valid()
    {
      Later(when, before, calls);
      forall k | 0 <= k < |records| ensures Collected(h, records[k], when(calls)) {
        assert Collected(h, records[k], when(before));
      }
    }

    method Recorded(parts: seq<string>) returns (j: Option<nat>)
      ensures j.Some? ==> j.value < |records| && records[j.value].parts == parts
      ensures j.None? ==> forall k :: 0 <= k < |records| ==> records[k].parts != parts
    {
      var k := 0;
      while k < |records|
        invariant 0 <= k <= |records|
        invariant forall m :: 0 <= m < k ==> records[m].parts != parts
      {
        if records[k].parts == parts {
          return Some(k);
        }
        k := k + 1;
      }
      return None;
    }

    /** Open, stat, stat by name, read, stat again. */
    method Fetch(parts: seq<string>, dirs: seq<Dir>, max: nat) returns (r: Option<Record>)
      requires Lawful(h) && Ordered(when) && |parts| > 0 && |dirs| == |parts|
      requires forall k :: 0 <= k < |parts| ==> SafePart(parts[k])
      modifies this`calls
      ensures calls >= old(calls)
      ensures r.Some? ==> r.value.parts == parts && r.value.dirs == dirs && r.value.max == max && |r.value.raw| <= max && Collected(h, r.value, when(calls))
      ensures r.Some? ==> Proper(r.value)
      ensures Still(h, when(old(calls))) ==>
                var w, e := h(when(old(calls))), Entry(dirs[|dirs| - 1], parts[|parts| - 1]);
                && (r.Some? <==> e in w.entries && FileOk(w, w.entries[e], max, requireProtected))
                && (r.Some? ==> At(w, r.value) && w.meta(r.value.inode) == r.value.snapshot && w.bytes(r.value.inode) == r.value.raw)
    {
      hide Lawful, Ordered, Still, Steady, SafePart, Collected;
      var place := Entry(dirs[|dirs| - 1], parts[|parts| - 1]);
      ghost var c0 := calls;
      var w := Look();
      if place !in w.entries {
        return None;
      }
      var i := w.entries[place];
      ghost var c1 := calls;
      w := Look();
      var before := w.meta(i);
      ghost var c2 := calls;
      w := Look();
      Later(when, c0, c1); Later(when, c1, c2);
      StillAt(h, when(c0), when(c1)); StillAt(h, when(c0), when(c2));
      if place !in w.entries || w.entries[place] != i || w.meta(i) != before
         || !before.kind.Regular? || before.nlink != 1 || before.size > max || (requireProtected && !before.protected) {
        return None;
      }
      ghost var c3 := calls;
      var raw := BoundedRead(i, max);
      ghost var c4 := calls;
      Later(when, c2, c3); Later(when, c3, c4); Later(when, c2, c4);
      if Still(h, when(c0)) {
        StillSteady(h, when(c0), i, when(c3), when(c4));
      }
      StillAt(h, when(c0), when(c4));
      w := Look();
      if raw.None? || w.meta(i) != before || |raw.value| != before.size {
        return None;
      }
      r := Some(Record(parts, dirs, i, before, raw.value, max));
      Later(when, c2, calls);
      SteadyRead(h, i, when(c1), when(c2), when(c3), when(c4));
      HeldIsCollected(h, r.value, when(c2), when(calls));
    }

    /** FileSetSnapshot.revalidate, together with the double-collect theorem: if it succeeds there
        was one instant at which every file held its recorded bytes, regular, single-linked and protected
        as asked, and from that instant on the root's own path led to the root, and the root to every
        file's directory. While nothing changes it succeeds exactly if all of it is as recorded. */
    method Revalidate() returns (ok: bool)
      requires Valid()
      modifies this`calls
      ensures calls >= old(calls)
      ensures ok ==> forall k :: 0 <= k < |records| ==> Held(h, when(old(calls)), records[k])
      ensures ok ==> forall k :: 0 <= k < |records| ==>
                FileOk(h(when(old(calls))), records[k].inode, records[k].max, requireProtected)
      ensures ok ==> forall k :: 0 <= k < |records| ==> InPlace(records[k], when(old(calls)), when(calls))
      ensures ok ==> Leads(h, top, path, root, when(old(calls)), when(calls))
      ensures Still(h, when(old(calls))) ==>
                (ok <==> AllStand(h(when(old(calls)))) && RootStands(h(when(old(calls))), top, path, root))
    {
      hide Collected, Confirmed, Reached, Lawful, Ordered, Stands, RootStands, FileOk, Proper, Held, Leads, Still;
      ghost var start := calls;
      var same := RecheckAll();
      if !same {
        return false;
      }
      DoubleCollect(h, records, when(start));
      AllSafe(when(start));
      ghost var before := calls;
      Later(when, start, before);
      StillAt(h, when(start), when(before));
      ok := RequireRootIdentity();
      Later(when, before, calls);
      StillInPlace(|records|, when(start), when(before), when(calls));
      if ok {
        LeadsWithin(h, top, path, root, when(before), when(calls), when(start), when(calls));
      }
    }

    /** The loop over the records. */
    method RecheckAll() returns (ok: bool)
      requires Valid()
      modifies this`calls
      ensures calls >= old(calls)
      ensures ok ==> forall k :: 0 <= k < |records| ==> Collected(h, records[k], when(old(calls))) && Confirmed(h, records[k], when(old(calls)))
      ensures ok ==> forall k :: 0 <= k < |records| ==> InPlace(records[k], when(old(calls)), when(calls))
      ensures Still(h, when(old(calls))) ==> (ok <==> AllStand(h(when(old(calls)))))
    {
      hide Collected, Confirmed, Reached, Lawful, Ordered, Stands, RootStands, FileOk, Proper, Still;
      ghost var start := calls;
      var k := 0;
      while k < |records|
        invariant 0 <= k <= |records| && calls >= start
        invariant forall m :: 0 <= m < k ==> Confirmed(h, records[m], when(start))
        invariant forall m :: 0 <= m < k ==> InPlace(records[m], when(start), when(calls))
        invariant Still(h, when(start)) ==> forall m :: 0 <= m < k ==> Stands(h(when(start)), root, records[m])
      {
        ghost var before := calls;
        Later(when, start, before);
        StillAt(h, when(start), when(before));
        var same := Recheck(records[k]);
        if !same {
          return false;
        }
        Later(when, before, calls);
        ConfirmedSince(h, records[k], when(before), when(start));
        ReachedWithin(h, root, Way(records[k]), records[k].dirs, when(before), when(calls), when(start), when(calls));
        StillInPlace(k, when(start), when(before), when(calls));
        k := k + 1;
      }
      return true;
    }

    lemma AllSafe(now: nat)
      requires Lawful(h)
      requires forall k :: 0 <= k < |records| ==> Proper(records[k]) && Collected(h, records[k], now) && Confirmed(h, records[k], now)
      ensures forall k :: 0 <= k < |records| ==> FileOk(h(now), records[k].inode, records[k].max, requireProtected)
    {
      hide Collected, Confirmed, Lawful, Ordered;
      forall k | 0 <= k < |records|
        ensures FileOk(h(now), records[k].inode, records[k].max, requireProtected)
      {
        assert Proper(records[k]);
        HeldBetween(h, records[k], now);
      }
    }

    /** During an interval the root led to the record's directory through the retained ones. */
    ghost predicate InPlace(r: Record, from: nat, until: nat) {
      FromRoot(r) && Reached(h, root, Way(r), r.dirs, from, until)
    }

    lemma StillInPlace(n: nat, from: nat, until: nat, end: nat)
      requires n <= |records| && until <= end
      requires forall m :: 0 <= m < n ==> InPlace(records[m], from, until)
      ensures forall m :: 0 <= m < n ==> InPlace(records[m], from, end)
    {
      forall m | 0 <= m < n ensures InPlace(records[m], from, end) {
        ReachedWithin(h, root, Way(records[m]), records[m].dirs, from, until, from, end);
      }
    }

    /** require_directory_path_identity: walk the root's path anew and compare. */
    method RequireRootIdentity() returns (ok: bool)
      requires Ordered(when)
      modifies this`calls
      ensures calls >= old(calls)
      ensures ok ==> Leads(h, top, path, root, when(old(calls)), when(calls))
      ensures Still(h, when(old(calls))) ==> (ok <==> RootStands(h(when(old(calls))), top, path, root))
    {
      hide Follows, Ordered;
      ghost var w0 := h(when(calls));
      if exists k :: 0 <= k < |path| && path[k] in {"", ".", ".."} {
        return false;
      }
      var dirs := Walk(top, path);
      ok := dirs.Some? && dirs.value[|path|] == root;
      if Still(h, when(old(calls))) && dirs.Some? {
        OnlyRoot(w0, dirs.value);
      }
    }

    lemma OnlyRoot(w: World, dirs: seq<Dir>)
      requires Follows(w, top, path, dirs) && forall k :: 0 <= k < |path| ==> path[k] !in {"", ".", ".."}
      ensures RootStands(w, top, path, root) <==> dirs[|path|] == root
    {
      if other :| Follows(w, top, path, other) && other[|path|] == root {
        SameWay(w, top, path, dirs, other);
      }
    }

    /** Look at one file again: its bytes, its metadata by descriptor and by name, and the
        directories on the way to it. */
    method Recheck(r: Record) returns (ok: bool)
      requires Ordered(when) && FromRoot(r) && Proper(r)
      modifies this`calls
      ensures calls >= old(calls)
      ensures ok ==> Confirmed(h, r, when(old(calls)))
      ensures ok ==> Reached(h, root, Way(r), r.dirs, when(old(calls)), when(calls))
      ensures Still(h, when(old(calls))) ==> (ok <==> Stands(h(when(old(calls))), root, r))
    {
      hide Ordered, Reached, Follows, Still;
      ghost var start := calls;
      var raw := BoundedRead(r.inode, r.max);
      if Still(h, when(start)) {
        StillSteady(h, when(start), r.inode, when(start), when(calls));
      }
      if raw != Some(r.raw) {
        return false;
      }
      Later(when, start, calls);
      StillAt(h, when(start), when(calls));
      var w := Look();
      var current := w.meta(r.inode);
      ghost var now := calls;
      Later(when, start, now);
      StillAt(h, when(start), when(now));
      w := Look();
      if current != r.snapshot || PlaceOf(r) !in w.entries || w.entries[PlaceOf(r)] != r.inode
         || w.meta(r.inode) != r.snapshot {
        return false;
      }
      ghost var before := calls;
      Later(when, start, before);
      StillAt(h, when(start), when(before));
      ok := RecheckWay(r);
      if ok {
        ReachedWithin(h, root, Way(r), r.dirs, when(before), when(calls), when(start), when(calls));
      }
    }

    /** Look again at each directory of the way, in the one before it. */
    method RecheckWay(r: Record) returns (ok: bool)
      requires Ordered(when) && FromRoot(r)
      modifies this`calls
      ensures calls >= old(calls)
      ensures ok ==> Reached(h, root, Way(r), r.dirs, when(old(calls)), when(calls))
      ensures Still(h, when(old(calls))) ==> (ok <==> Follows(h(when(old(calls))), root, Way(r), r.dirs))
    {
      hide Ordered, Seen, Reached, Follows, Still, Way;
      ghost var start := calls;
      NoWay(h, root, r, when(start));
      var k := 0;
      while k < |r.dirs| - 1
        invariant 0 <= k < |r.dirs| && calls >= start
        invariant OnTheWay(h, root, r, k, when(start), when(calls))
      {
        Later(when, start, calls);
        StillAt(h, when(start), when(calls));
        var w := Look();
        var e := Entry(r.dirs[k], r.parts[k]);
        if e !in w.entries || w.entries[e] != r.dirs[k + 1] || !w.meta(r.dirs[k + 1]).kind.Directory? {
          LostWay(w, root, r, k);
          return false;
        }
        Later(when, calls - 1, calls);
        WayOn(h, root, r, k, when(start), when(calls - 1), when(calls));
        k := k + 1;
      }
      WayEnds(h, root, r, when(start), when(calls));
      return true;
    }
  }

  /** The first directories of a record's way were each seen in their place; and are in it, while nothing
      changes. */
  ghost predicate OnTheWay(h: History, root: Dir, r: Record, k: nat, start: nat, now: nat) {
    && WellFormed(r) && k < |r.dirs|
    && Reached(h, root, Way(r)[..k], r.dirs[..k + 1], start, now)
    && (Still(h, start) ==> Follows(h(start), root, Way(r)[..k], r.dirs[..k + 1]))
  }

  lemma WayOn(h: History, root: Dir, r: Record, k: nat, start: nat, m: nat, end: nat)
    requires OnTheWay(h, root, r, k, start, m) && k < |r.parts| - 1 && start <= m <= end
    requires OpensTo(h(m), r.dirs[k], r.parts[k], r.dirs[k + 1])
    ensures OnTheWay(h, root, r, k + 1, start, end)
  {
    hide Reached, Follows, OpensTo;
    var dirs, next := r.dirs[..k + 1], r.dirs[k + 1];
    assert Way(r)[k] == r.parts[k] && dirs[k] == r.dirs[k] && dirs + [next] == r.dirs[..k + 2];
    ReachedOn(h, root, Way(r), dirs, k, next, start, m, end);
    if Still(h, start) {
      OneStepOn(h(start), root, Way(r), dirs, k, next);
    }
  }

  lemma WayEnds(h: History, root: Dir, r: Record, start: nat, now: nat)
    requires WellFormed(r) && OnTheWay(h, root, r, |r.dirs| - 1, start, now)
    ensures Reached(h, root, Way(r), r.dirs, start, now) && (Still(h, start) ==> Follows(h(start), root, Way(r), r.dirs))
  {
    hide Reached, Follows;
    assert r.dirs[..|r.dirs|] == r.dirs && Way(r)[..|r.dirs| - 1] == Way(r);
  }

  lemma NoWay(h: History, root: Dir, r: Record, now: nat)
    requires WellFormed(r) && r.dirs[0] == root
    ensures OnTheWay(h, root, r, 0, now, now)
  {}

  lemma LostWay(w: World, root: Dir, r: Record, k: nat)
    requires WellFormed(r) && k < |r.parts| - 1 && !OpensTo(w, r.dirs[k], r.parts[k], r.dirs[k + 1])
    ensures !Follows(w, root, Way(r), r.dirs)
  {
    assert Way(r)[k] == r.parts[k];
  }

  lemma ConfirmedSince(h: History, r: Record, now: nat, start: nat)
    requires Confirmed(h, r, now) && start <= now
    ensures Confirmed(h, r, start)
  {
  }

  lemma LeadsWithin(h: History, top: Dir, path: seq<string>, d: Dir, from: nat, until: nat, start: nat, end: nat)
    requires Leads(h, top, path, d, from, until) && start <= from && until <= end
    ensures Leads(h, top, path, d, start, end)
  {
    var dirs :| Reached(h, top, path, dirs, from, until) && dirs[|path|] == d;
    ReachedWithin(h, top, path, dirs, from, until, start, end);
  }

  lemma StaysCollected(h: History, r: Record, max: nat, now: nat)
    requires Collected(h, r, now)
    ensures Collected(h, r.(max := max), now)
  {
    var b: nat :| b <= now && Held(h, b, r) && h(b).meta(r.inode) == r.snapshot;
    assert Held(h, b, r.(max := max));
  }

  /** Metadata equal before and after a read: the bytes stood still in between. */
  lemma SteadyRead(h: History, i: Inode, t1: nat, t2: nat, t3: nat, t4: nat)
    requires Lawful(h) && t1 <= t2 <= t3 <= t4 && h(t1).meta(i) == h(t4).meta(i)
    ensures Steady(h, i, t3, t4, h(t2).bytes(i))
  {
    Unchanged(h, i, t1, t2, t4);
    forall m: nat | t3 <= m <= t4 ensures h(m).bytes(i) == h(t2).bytes(i) {
      Unchanged(h, i, t1, m, t4);
    }
  }
}
