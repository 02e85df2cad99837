/** When a failed `_write_bytes_at` (src/sddgov/evidence.py:1105-1140, 982-1032) leaves its
    predecessor with one link fewer, told from what the others do and not from the write's record. */
module PredecessorLoss {
  import opened Common
  import opened Filesystem
  import opened OwnedRemoval
  import opened Publication

  // ---------------------------------------------------------------- what loses the predecessor

  /** The phases before the claim succeed, and the claim finds a file to link aside. */
  predicate Claims(w: Writers, s: State, q: Request) {
    var (s1, go) := Precheck(w, s, q);
    var staged := Stage(w, s1, q);
    q.expected.Some? && go && staged.ok && q.text in w(staged.s).public && staged.p.old_ !in w(staged.s).private
  }

  /** What the linking found at the public name. */
  function Found(w: Writers, s: State, q: Request): Inode
    requires Claims(w, s, q)
  {
    w(Stage(w, Precheck(w, s, q).0, q).s).public[q.text]
  }

  /** The directory once it is linked aside. */
  function Aside(w: Writers, s: State, q: Request): State
    requires Claims(w, s, q)
  {
    var staged := Stage(w, Precheck(w, s, q).0, q);
    Link(w(staged.s), Public(q.text), Private(staged.p.old_))
  }

  /** The vacating reserves the expected predecessor and, looking at it, finds it unchanged. */
  predicate TakesPredecessor(w: Writers, s: State, q: Request)
    requires Claims(w, s, q)
  {
    var claim := Reserve(w, Aside(w, s, q), Public(q.text), q.tries, NoFault);
    TookClaim(claim, q.expected.value.inode) && Inspect(w, claim.s, claim.c.pending, OwnExpected(q.expected.value)).owned
  }

  /** The phase a write stops at. */
  function Last(w: Writers, s: State, q: Request): Phase
    requires q.expected.Some?
  {
    var staged := Stage(w, Precheck(w, s, q).0, q);
    var claimed := ClaimOld(w, staged.s, staged.p, q);
    if claimed.ok then Expose(w, claimed.s, claimed.p, q) else claimed
  }

  /** The directory once what was published is withdrawn. */
  function Withdrawn(w: Writers, last: Phase, q: Request): State {
    if last.p.published then RemoveOwned(w, last.s, Public(q.text), OwnStaged(last.p, q), q.tries, NoFault).s else last.s
  }

  /** The predecessor is aside, still whole, but another file is at the name, and it is dropped. */
  predicate GivesUp(w: Writers, s: State, p: Progress, q: Request)
    requires q.expected.Some?
  {
    var e := q.expected.value;
    var read := Read(w, s, Private(p.old_), MAX_CONTROL_BYTES);
    && p.oldIdentity == Some(e.inode) && Exact(read.seen, e.inode, e.size, e.digest)
    && q.text in w(read.s).public
    && RemoveOwned(w, w(read.s), Private(p.old_), Owner(Regular, e.inode, Some(e.size), Some(e.digest)), q.tries, NoFault).r == Removed
  }

  /** The two ways a failed write costs the predecessor a link, told from the schedule alone: what was
      linked aside was another file and what was then taken from the name was the predecessor; or both
      were the predecessor and it was given up for another file at the name. */
  predicate LinkedAnother(w: Writers, s: State, q: Request) {
    Claims(w, s, q) && Found(w, s, q) != q.expected.value.inode && TakesPredecessor(w, s, q)
  }

  predicate GaveUp(w: Writers, s: State, q: Request) {
    && Claims(w, s, q) && Found(w, s, q) == q.expected.value.inode && TakesPredecessor(w, s, q)
    && GivesUp(w, Withdrawn(w, Last(w, s, q), q), Last(w, s, q).p, q)
  }

  /** Without a fault a removal succeeds exactly when it reserves something and finds it its own. */
  lemma RemovedIff(w: Writers, s: State, name: Name, o: Owner, tries: nat)
    requires Lawful(w) && Valid(s) && !IsPending(name)
    ensures
      var claim := Reserve(w, s, name, tries, NoFault);
      RemoveOwned(w, s, name, o, tries, NoFault).r == Removed
      <==> TookClaim(claim, o.inode) && Inspect(w, claim.s, claim.c.pending, o).owned
  {
    hide Reserve, Inspect;
    RemoveOwnedConserves(w, s, name, o, tries, NoFault);
  }

  /** A restore drops the predecessor exactly when it gives it up. */
  lemma RestoreDrops(w: Writers, s: State, p: Progress, q: Request)
    requires q.expected.Some? && p.oldLinked && p.relinked == 0 && p.aside == Some(q.expected.value.inode)
    requires p.oldIdentity.Some? ==> p.oldIdentity == p.aside
    ensures Dropped(RestoreOld(w, s, p, q).p, q.expected.value.inode) <==> GivesUp(w, s, p, q)
  {
    hide Read, ReturnOld, RemoveOwned, Exact;
    var read := Read(w, s, Private(p.old_), MAX_CONTROL_BYTES);
    if p.oldIdentity.Some? {
      ReturnDrops(w, w(read.s), p, q);
    }
  }

  lemma ReturnDrops(w: Writers, s: State, p: Progress, q: Request)
    requires q.expected.Some? && p.oldLinked && p.relinked == 0 && p.aside == Some(q.expected.value.inode) == p.oldIdentity
    ensures
      var e := q.expected.value;
      Dropped(ReturnOld(w, s, p, q).p, e.inode)
      <==> q.text in s.public
           && RemoveOwned(w, s, Private(p.old_), Owner(Regular, e.inode, Some(e.size), Some(e.digest)), q.tries, NoFault).r == Removed
  {
    hide Read, RemoveOwned, Link, Exact;
  }

  lemma DropRecords(w: Writers, s: State, p: Progress, q: Request)
    requires p.oldIdentity.Some? && q.expected.Some?
    ensures var p1 := DropOld(w, s, p, q).p; p1 == p.(oldLinked := p1.oldLinked)
  {
    hide RemoveOwned;
  }

  lemma ReturnRecords(w: Writers, s: State, p: Progress, q: Request)
    requires p.oldIdentity.Some? && q.expected.Some?
    ensures
      var p1 := ReturnOld(w, s, p, q).p;
      p1 == p.(oldLinked := p1.oldLinked, relinked := p1.relinked, superseded := p1.superseded)
  {
    hide Read, DropOld, Link, Exact;
    if q.text in s.public {
      DropRecords(w, s, p.(superseded := Some(s.public[q.text])), q);
    } else if p.old_ in s.private {
      DropRecords(w, Link(s, Private(p.old_), Public(q.text)), p.(relinked := p.relinked + 1), q);
    }
  }

  /** A restore changes nothing of what was found and vacated. */
  lemma RestoreRecords(w: Writers, s: State, p: Progress, q: Request)
    ensures
      var p1 := RestoreOld(w, s, p, q).p;
      p1 == p.(oldLinked := p1.oldLinked, relinked := p1.relinked, superseded := p1.superseded)
  {
    hide Read, ReturnOld, Exact;
    var read := Read(w, s, Private(p.old_), MAX_CONTROL_BYTES);
    if p.oldIdentity.Some? && q.expected.Some? {
      ReturnRecords(w, w(read.s), p, q);
    }
  }

  /** What the claim records. */
  lemma ClaimRecords(w: Writers, s: State, q: Request)
    requires Lawful(w) && Valid(s) && Claims(w, s, q)
    ensures
      var staged := Stage(w, Precheck(w, s, q).0, q);
      var p := ClaimOld(w, staged.s, staged.p, q).p;
      p.aside == Some(Found(w, s, q)) && (p.vacated <==> TakesPredecessor(w, s, q))
  {
    hide Stage, Precheck, RemoveOwned, Read, RestoreOld, Link, Reserve, Inspect, Balances, NLink;
    AsideIsValid(w, s, q);
    var staged := Stage(w, Precheck(w, s, q).0, q);
    var o := OwnExpected(q.expected.value);
    RemovedIff(w, Aside(w, s, q), Public(q.text), o, q.tries);
    var p1 := staged.p.(oldLinked := true, aside := Some(Found(w, s, q)));
    var vacated := RemoveOwned(w, Aside(w, s, q), Public(q.text), o, q.tries, NoFault);
    assert ClaimOld(w, staged.s, staged.p, q) == VacateOld(w, Aside(w, s, q), p1, q);
    NothingVacated(w, s, q);
    CheckRecords(w, vacated.s, p1.(vacated := vacated.r.Removed?), q);
  }

  lemma NothingVacated(w: Writers, s: State, q: Request)
    requires Lawful(w) && Valid(s) && Precheck(w, s, q).1
    ensures var staged := Stage(w, Precheck(w, s, q).0, q); NothingAside(staged.p) && IsControl(staged.p)
  {
    hide Stage, Precheck, Balances;
    PrecheckKeeps(w, s, q);
    StageKeeps(w, Precheck(w, s, q).0, q);
  }

  lemma CheckRecords(w: Writers, s: State, p: Progress, q: Request)
    requires q.expected.Some?
    ensures var p1 := CheckOld(w, s, p, q).p; p1.aside == p.aside && p1.vacated == p.vacated
  {
    hide Read, RestoreOld;
    var read := Read(w, s, Private(p.old_), MAX_CONTROL_BYTES);
    if read.seen.Some? {
      RestoreRecords(w, read.s, p.(oldIdentity := Some(read.seen.value.inode)), q);
    }
  }

  lemma AsideIsValid(w: Writers, s: State, q: Request)
    requires Lawful(w) && Valid(s) && Claims(w, s, q)
    ensures Valid(Aside(w, s, q))
  {
    hide Stage, Precheck, Balances, NLink;
    PrecheckKeeps(w, s, q);
    var s1 := Precheck(w, s, q).0;
    StageKeeps(w, s1, q);
    var staged := Stage(w, s1, q);
    LinkKeeps(w(staged.s), Public(q.text), Private(staged.p.old_));
  }

  /** The predecessor as it was read before anything was staged. */
  ghost predicate AsRead(s: State, e: Snap) {
    && e.inode in s.files && s.files[e.inode].mtime == e.mtime
    && |s.files[e.inode].bytes| == e.size && Sha256(s.files[e.inode].bytes) == e.digest
  }

  lemma PrecheckRead(w: Writers, s: State, q: Request)
    requires Lawful(w) && Valid(s) && q.expected.Some? && Precheck(w, s, q).1
    ensures AsRead(Precheck(w, s, q).0, q.expected.value)
  {
    hide Read, Balances, NLink;
    ReadKeeps(w, w(s), Public(q.text), MAX_CONTROL_BYTES);
  }

  lemma StillAsRead(s: State, t: State, e: Snap)
    requires AsRead(s, e) && FilesKept(s, t)
    ensures AsRead(t, e)
  {}

  lemma AsideAsRead(w: Writers, s: State, q: Request)
    requires Lawful(w) && Valid(s) && Claims(w, s, q)
    ensures AsRead(Aside(w, s, q), q.expected.value)
    ensures
      var p := Stage(w, Precheck(w, s, q).0, q).p;
      p.old_ in Aside(w, s, q).private && Aside(w, s, q).private[p.old_] == Found(w, s, q)
  {
    hide Stage, Precheck, Balances, NLink, AsRead;
    PrecheckRead(w, s, q);
    PrecheckKeeps(w, s, q);
    var s1 := Precheck(w, s, q).0;
    StageKeeps(w, s1, q);
    var staged := Stage(w, s1, q);
    StillAsRead(s1, staged.s, q.expected.value);
    StillAsRead(staged.s, w(staged.s), q.expected.value);
    StillAsRead(w(staged.s), Aside(w, s, q), q.expected.value);
  }

  /** A claim that holds the predecessor keeps it linked aside, identified or not. */
  lemma ClaimHolds(w: Writers, s: State, q: Request)
    requires Lawful(w) && Valid(s) && Claims(w, s, q) && Found(w, s, q) == q.expected.value.inode
    ensures
      var staged := Stage(w, Precheck(w, s, q).0, q);
      var p := ClaimOld(w, staged.s, staged.p, q).p;
      p.oldLinked && p.relinked == 0 && (p.oldIdentity.Some? ==> p.oldIdentity == Some(q.expected.value.inode))
  {
    hide Stage, Precheck, RemoveOwned, CheckOld, Balances, NLink, AsRead;
    AsideIsValid(w, s, q);
    AsideAsRead(w, s, q);
    NothingVacated(w, s, q);
    var staged := Stage(w, Precheck(w, s, q).0, q);
    var o := OwnExpected(q.expected.value);
    var p1 := staged.p.(oldLinked := true, aside := Some(Found(w, s, q)));
    assert ClaimOld(w, staged.s, staged.p, q) == VacateOld(w, Aside(w, s, q), p1, q);
    RemoveOwnedConserves(w, Aside(w, s, q), Public(q.text), o, q.tries, NoFault);
    var vacated := RemoveOwned(w, Aside(w, s, q), Public(q.text), o, q.tries, NoFault);
    StillAsRead(Aside(w, s, q), vacated.s, q.expected.value);
    CheckHolds(w, vacated.s, p1.(vacated := vacated.r.Removed?), q);
  }

  lemma CheckHolds(w: Writers, s: State, p: Progress, q: Request)
    requires Lawful(w) && Valid(s) && q.expected.Some? && AsRead(s, q.expected.value) && p.oldIdentity.None?
    requires p.old_ in s.private && s.private[p.old_] == q.expected.value.inode
    ensures
      var p1 := CheckOld(w, s, p, q).p;
      p1 == p.(oldIdentity := p1.oldIdentity) && (p1.oldIdentity.Some? ==> p1.oldIdentity == Some(q.expected.value.inode))
  {
    hide Read, RestoreOld, Balances, NLink;
    ReadKeeps(w, s, Private(p.old_), MAX_CONTROL_BYTES);
  }

  lemma ExposeRecords(w: Writers, s: State, p: Progress, q: Request)
    ensures var p1 := Expose(w, s, p, q).p; p1 == p.(newLinked := p1.newLinked, published := p1.published)
  {
    hide ConfirmNew, Link;
    var s1 := w(s);
    if !Has(s1, Public(q.text)) && p.new_ in s1.private {
      ConfirmRecords(w, Link(s1, Private(p.new_), Public(q.text)), p.(published := true), q);
    }
  }

  lemma ConfirmRecords(w: Writers, s: State, p: Progress, q: Request)
    ensures var p1 := ConfirmNew(w, s, p, q).p; p1 == p.(newLinked := p1.newLinked)
  {
    hide RemoveOwned, Read, Exact;
  }

  /** What is recorded of a failed write. */
  lemma FailedRecords(w: Writers, s: State, q: Request)
    requires Lawful(w) && Valid(s) && q.expected.Some? && WriteBytes(w, s, q).out.Failed?
    ensures
      var p := WriteBytes(w, s, q).out.p;
      if Claims(w, s, q) then
        var last := Last(w, s, q);
        !last.ok && p == RestoreOld(w, Withdrawn(w, last, q), last.p, q).p
      else !p.vacated
  {
    hide Stage, Precheck, RestoreOld, RemoveOwned, DropStagings, VacateOld, Expose, Balances, NLink, Link;
    NothingVacated(w, s, q);
    var staged := Stage(w, Precheck(w, s, q).0, q);
    RestoreRecords(w, staged.s, staged.p, q);
    RestoreRecords(w, w(staged.s), staged.p, q);
    NothingPublished(w, s, q);
  }

  lemma NothingPublished(w: Writers, s: State, q: Request)
    requires Lawful(w) && Valid(s) && Precheck(w, s, q).1
    ensures !Stage(w, Precheck(w, s, q).0, q).p.published
  {
    hide Stage, Precheck, Balances;
    PrecheckKeeps(w, s, q);
    StageKeeps(w, Precheck(w, s, q).0, q);
  }

  /** The record of a failed write loses the predecessor exactly when the schedule does. */
  lemma LostIff(w: Writers, s: State, q: Request)
    requires Lawful(w) && Valid(s) && q.expected.Some? && WriteBytes(w, s, q).out.Failed?
    ensures Lost(WriteBytes(w, s, q).out.p, q.expected.value.inode) <==> LinkedAnother(w, s, q) || GaveUp(w, s, q)
  {
    hide WriteBytes, Stage, Precheck, RestoreOld, RemoveOwned, ClaimOld, Expose, GivesUp, Balances, NLink, Link, Reserve, Inspect;
    FailedRecords(w, s, q);
    if Claims(w, s, q) {
      var e := q.expected.value.inode;
      var staged := Stage(w, Precheck(w, s, q).0, q);
      var claimed, last := ClaimOld(w, staged.s, staged.p, q), Last(w, s, q);
      ClaimRecords(w, s, q);
      ExposeRecords(w, claimed.s, claimed.p, q);
      RestoreRecords(w, Withdrawn(w, last, q), last.p, q);
      if Found(w, s, q) == e {
        ClaimHolds(w, s, q);
        RestoreDrops(w, Withdrawn(w, last, q), last.p, q);
      }
    }
  }

  /** The predecessor itself, found with its one link and, on balance, neither linked nor unlinked by
      the others: after a failed write it has no name exactly when another file was linked aside and it
      was then taken from the name, or when it was aside itself and was given up for another. */
  lemma PredecessorLostIff(w: Writers, s: State, q: Request)
    requires Lawful(w) && Valid(s) && q.expected.Some? && NLink(s, q.expected.value.inode) == 1
    requires WriteBytes(w, s, q).out.Failed?
    requires var t, e := WriteBytes(w, s, q).s, q.expected.value.inode;
             t.rivalMade[e] + s.rivalGone[e] == s.rivalMade[e] + t.rivalGone[e]
    ensures
      var t, e := WriteBytes(w, s, q).s, q.expected.value.inode;
      (exists n :: Has(t, n) && At(t, n) == e) <==> !(LinkedAnother(w, s, q) || GaveUp(w, s, q))
  {
    hide WriteBytes, LinkedAnother, GaveUp;
    NoLostUpdate(w, s, q);
    LostIff(w, s, q);
    var step, e := WriteBytes(w, s, q), q.expected.value.inode;
    NLinkPositive(step.s, e);
    assert NLink(step.s, e) == 1 + Balance(step.out.p, e) by {
      assert NLink(s, e) == 1;
    }
  }
}
