/** `_write_bytes_at` (src/sddgov/evidence.py): publish one file at a public name, replacing an
    expected predecessor if there is one, without ever clobbering a generation another writer
    put there. A lock-free compare-and-swap built from exclusive create, hard link, owned
    removal and re-reading. */
module Publication {
  import opened Common
  import opened Filesystem
  import opened OwnedRemoval

  const MAX_CONTROL_BYTES: nat := 1024 * 1024

  /** The predecessor a caller read: identity, size and modification time, and digest. */
  datatype Snap = Snap(inode: Inode, size: nat, mtime: int, digest: Digest)

  /** `tries` is how often an owned removal draws a private name; the code allows 16. */
  datatype Request = Request(
    text: string, bytes: Bytes, mtime: int, expected: Option<Snap>, mustNotExist: bool, tries: nat)

  /** The local names and flags of the procedure. */
  datatype Progress = Progress(
    stage: Tag, new_: Tag, old_: Tag,
    staged: Inode,
    stageLinked: bool, newLinked: bool, oldLinked: bool,
    verified: bool,
    oldIdentity: Option<Inode>,
    published: bool,
    /** what was linked aside as the predecessor, and whether vacating the name then removed a link */
    aside: Option<Inode>,
    vacated: bool,
    /** how often what was aside was linked back, and the generation found in its place instead */
    relinked: nat,
    superseded: Option<Inode>)

  datatype Phase = Phase(s: State, p: Progress, ok: bool)
  datatype Seen = Seen(inode: Inode, file: File)
  datatype ReadStep = ReadStep(s: State, seen: Option<Seen>)
  datatype OldStep = OldStep(s: State, p: Progress, ok: bool)

  // ---------------------------------------------------------------- reading

  /** `_read_regular_bytes_at`: a single-linked regular file, unchanged while read, still at its
      name afterwards. */
  function Read(w: Writers, s: State, name: Name, max: nat): ReadStep {
    var s1 := w(s);
    if !Has(s1, name) || At(s1, name) !in s1.files then ReadStep(s1, None) else
      var i := At(s1, name);
      var f := s1.files[i];
      if f.kind != Regular || NLink(s1, i) != 1 || |f.bytes| > max then ReadStep(s1, None) else
        var s2 := w(s1);
        if Ctime(s2, i) != Ctime(s1, i) || NLink(s2, i) != 1 then ReadStep(s2, None) else
          var s3 := w(s2);
          if !Has(s3, name) || At(s3, name) != i || Ctime(s3, i) != Ctime(s1, i) || NLink(s3, i) != 1
          then ReadStep(s3, None)
          else ReadStep(s3, Some(Seen(i, f)))
  }

  lemma ReadKeeps(w: Writers, s: State, name: Name, max: nat)
    requires Lawful(w) && Valid(s)
    ensures
      var step := Read(w, s, name, max);
      && Undisturbed(s, step.s)
      && (step.seen.Some? ==>
            && Has(step.s, name) && At(step.s, name) == step.seen.value.inode
            && step.seen.value.inode in step.s.files && step.s.files[step.seen.value.inode] == step.seen.value.file
            && step.seen.value.file.kind == Regular && NLink(step.s, step.seen.value.inode) == 1)
  {
    var s1 := w(s);
    var s2 := w(s1);
    var s3 := w(s2);
    EvolvesTrans(s, s1, s2);
    EvolvesTrans(s, s2, s3);
  }

  predicate Exact(seen: Option<Seen>, i: Inode, size: nat, digest: Digest) {
    seen.Some? && seen.value.inode == i && |seen.value.file.bytes| == size && Sha256(seen.value.file.bytes) == digest
  }

  /** The whole snapshot, modification time included. */
  predicate Matches(seen: Option<Seen>, e: Snap) {
    Exact(seen, e.inode, e.size, e.digest) && seen.value.file.mtime == e.mtime
  }

  // ---------------------------------------------------------------- the phases

  /** Checks made before anything is staged. */
  function Precheck(w: Writers, s: State, q: Request): (State, bool) {
    var s1 := w(s);
    var here := Has(s1, Public(q.text));
    if here && (s1.public[q.text] !in s1.files || s1.files[s1.public[q.text]].kind != Regular
                || NLink(s1, s1.public[q.text]) != 1)
    then (s1, false)
    else if here && q.mustNotExist then (s1, false)
    else if q.expected.None? then (s1, true)
    else if !here then (s1, false)
    else
      var read := Read(w, s1, Public(q.text), MAX_CONTROL_BYTES);
      (read.s, Matches(read.seen, q.expected.value))
  }

  function Names(s: State): Progress {
    Progress(Tag(ControlStage, s.tokens(s.drawn)), Tag(ControlNew, s.tokens(s.drawn + 1)),
             Tag(ControlOld, s.tokens(s.drawn + 2)), s.next, false, false, false, false, None, false, None, false, 0, None)
  }

  function OwnStaged(p: Progress, q: Request): Owner {
    Owner(Regular, p.staged, Some(|q.bytes|), Some(Sha256(q.bytes)))
  }

  /** Write the bytes to a private file and move them to a second private name. */
  function Stage(w: Writers, s: State, q: Request): Phase {
    var s1 := w(s.(drawn := s.drawn + 3));
    StageCreate(w, s1, Names(s).(staged := s1.next), q)
  }

  function StageCreate(w: Writers, s: State, p: Progress, q: Request): Phase {
    if p.stage in s.private then Phase(s, p, false) else
      StageLink(w, w(Create(s, p.stage, q.bytes, q.mtime)), p.(stageLinked := true), q)
  }

  function StageLink(w: Writers, s: State, p: Progress, q: Request): Phase {
    if p.new_ in s.private || p.stage !in s.private then Phase(s, p, false) else
      StageClaim(w, Link(s, Private(p.stage), Private(p.new_)), p.(newLinked := true), q)
  }

  function StageClaim(w: Writers, s: State, p: Progress, q: Request): Phase {
    var removal := RemoveOwned(w, s, Private(p.stage), OwnStaged(p, q), q.tries, NoFault);
    if removal.r != Removed then Phase(removal.s, p, false) else
      var read := Read(w, removal.s, Private(p.new_), |q.bytes|);
      var exact := Exact(read.seen, p.staged, |q.bytes|, Sha256(q.bytes));
      Phase(read.s, p.(stageLinked := false, verified := exact), exact)
  }

  function OwnExpected(e: Snap): Owner {
    Owner(Regular, e.inode, Some(e.size), Some(e.digest))
  }

  /** Keep the predecessor under a private name and vacate the public one. */
  function ClaimOld(w: Writers, s: State, p: Progress, q: Request): Phase
    requires q.expected.Some?
  {
    var s1 := w(s);
    if !Has(s1, Public(q.text)) || p.old_ in s1.private then Phase(s1, p, false) else
      VacateOld(w, Link(s1, Public(q.text), Private(p.old_)), p.(oldLinked := true, aside := Some(s1.public[q.text])), q)
  }

  function VacateOld(w: Writers, s: State, p: Progress, q: Request): Phase
    requires q.expected.Some?
  {
    var vacated := RemoveOwned(w, s, Public(q.text), OwnExpected(q.expected.value), q.tries, NoFault);
    if vacated.r.Removed? || vacated.r.Absent? || vacated.r.Restored?
    then CheckOld(w, vacated.s, p.(vacated := vacated.r.Removed?), q)
    else Phase(vacated.s, p, false)
  }

  /** Is what we hold the predecessor that was expected? If not, give it back and stop. */
  function CheckOld(w: Writers, s: State, p: Progress, q: Request): Phase
    requires q.expected.Some?
  {
    var read := Read(w, s, Private(p.old_), MAX_CONTROL_BYTES);
    if read.seen.None? then Phase(read.s, p, false) else
      var p1 := p.(oldIdentity := Some(read.seen.value.inode));
      if Matches(read.seen, q.expected.value) then Phase(read.s, p1, true) else
        var back := RestoreOld(w, read.s, p1, q);
        Phase(back.s, back.p, false)
  }

  /** Link the staged file at the public name, if it is still vacant. */
  function Expose(w: Writers, s: State, p: Progress, q: Request): Phase {
    var s1 := w(s);
    if Has(s1, Public(q.text)) || p.new_ !in s1.private then Phase(s1, p, false) else
      ConfirmNew(w, Link(s1, Private(p.new_), Public(q.text)), p.(published := true), q)
  }

  function ConfirmNew(w: Writers, s: State, p: Progress, q: Request): Phase {
    var removal := RemoveOwned(w, s, Private(p.new_), OwnStaged(p, q), q.tries, NoFault);
    if removal.r != Removed then Phase(removal.s, p, false) else
      var p1 := p.(newLinked := false);
      var first := Read(w, removal.s, Public(q.text), |q.bytes|);
      if !Exact(first.seen, p.staged, |q.bytes|, Sha256(q.bytes)) then Phase(first.s, p1, false) else
        var second := Read(w, first.s, Public(q.text), |q.bytes|);
        Phase(second.s, p1, Exact(second.seen, p.staged, |q.bytes|, Sha256(q.bytes)))
  }

  /** Put the predecessor back at the public name, unless a later writer holds it; then drop the
      private link. */
  function RestoreOld(w: Writers, s: State, p: Progress, q: Request): OldStep {
    if !p.oldLinked then OldStep(s, p, true)
    else if p.oldIdentity.None? || q.expected.None? then OldStep(s, p, false)
    else
      var read := Read(w, s, Private(p.old_), MAX_CONTROL_BYTES);
      if !Exact(read.seen, p.oldIdentity.value, q.expected.value.size, q.expected.value.digest)
      then OldStep(read.s, p, false)
      else ReturnOld(w, w(read.s), p, q)
  }

  function ReturnOld(w: Writers, s: State, p: Progress, q: Request): OldStep
    requires p.oldIdentity.Some? && q.expected.Some?
  {
    if Has(s, Public(q.text)) then DropOld(w, s, p.(superseded := Some(s.public[q.text])), q)
    else if p.old_ !in s.private then OldStep(s, p, false)
    else
      var dropped := DropOld(w, Link(s, Private(p.old_), Public(q.text)), p.(relinked := p.relinked + 1), q);
      if !dropped.ok then dropped else
        var check := Read(w, dropped.s, Public(q.text), MAX_CONTROL_BYTES);
        dropped.(s := check.s, ok := Exact(check.seen, p.oldIdentity.value, q.expected.value.size, q.expected.value.digest))
  }

  function DropOld(w: Writers, s: State, p: Progress, q: Request): OldStep
    requires p.oldIdentity.Some? && q.expected.Some?
  {
    var o := Owner(Regular, p.oldIdentity.value, Some(q.expected.value.size), Some(q.expected.value.digest));
    var removal := RemoveOwned(w, s, Private(p.old_), o, q.tries, NoFault);
    if removal.r == Removed then OldStep(removal.s, p.(oldLinked := false), true)
    else OldStep(removal.s, p, false)
  }

  datatype Outcome = Refused | Published(p: Progress) | Failed(p: Progress)
  datatype WriteStep = WriteStep(s: State, out: Outcome)

  datatype DropStep = DropStep(s: State, linked: bool)

  function DropStaging(w: Writers, d: DropStep, tag: Tag, o: Owner, q: Request): DropStep {
    if !d.linked then d else
      var removal := RemoveOwned(w, d.s, Private(tag), o, q.tries, NoFault);
      DropStep(removal.s, removal.r != Removed)
  }

  /** Drop both staging names, each tried a second time if the first try did not succeed. */
  function DropStagings(w: Writers, s: State, p: Progress, q: Request): State {
    var o := if p.verified then OwnStaged(p, q) else Owner(Regular, p.staged, None, None);
    var stage1 := DropStaging(w, DropStep(s, p.stageLinked), p.stage, o, q);
    var new1 := DropStaging(w, DropStep(stage1.s, p.newLinked), p.new_, o, q);
    var stage2 := DropStaging(w, DropStep(new1.s, stage1.linked), p.stage, OwnStaged(p, q), q);
    DropStaging(w, DropStep(stage2.s, new1.linked), p.new_, OwnStaged(p, q), q).s
  }

  /** After a failure: withdraw what was published, restore the predecessor, drop the staging. */
  function Cleanup(w: Writers, s: State, p: Progress, q: Request): WriteStep {
    var s1 := if p.published
              then RemoveOwned(w, s, Public(q.text), OwnStaged(p, q), q.tries, NoFault).s else s;
    var back := RestoreOld(w, s1, p, q);
    WriteStep(DropStagings(w, back.s, back.p, q), Failed(back.p))
  }

  function Finish(w: Writers, last: Phase, q: Request): WriteStep {
    if last.ok then WriteStep(last.s, Published(last.p)) else Cleanup(w, last.s, last.p, q)
  }

  /** The whole procedure, with the final step left to the transaction that owns it. */
  function WriteBytes(w: Writers, s: State, q: Request): WriteStep {
    var (s1, go) := Precheck(w, s, q);
    if !go then WriteStep(s1, Refused) else
      var staged := Stage(w, s1, q);
      if !staged.ok then Finish(w, staged, q)
      else if q.expected.None? then Finish(w, Expose(w, staged.s, staged.p, q), q)
      else
        var claimed := ClaimOld(w, staged.s, staged.p, q);
        Finish(w, if claimed.ok then Expose(w, claimed.s, claimed.p, q) else claimed, q)
  }

  // ---------------------------------------------------------------- the ledger of one write

  predicate IsControl(p: Progress) {
    p.stage.role == ControlStage && p.new_.role == ControlNew && p.old_.role == ControlOld
  }

  /** Is `i` what this write holds under its private predecessor name? */
  predicate Holds(s: State, p: Progress, i: Inode) {
    p.oldLinked && p.old_ in s.private && s.private[p.old_] == i
  }

  /** Since `s0` this write removed no more links of `i` than it made, and one fewer while it
      still holds `i`. */
  predicate Covered(s0: State, s: State, p: Progress, i: Inode) {
    s.made[i] + s0.gone[i] >= s.gone[i] + s0.made[i] + Count(Holds(s, p, i))
  }

  /** ... without counting the link it holds. */
  predicate Square(s0: State, s: State, i: Inode) {
    s.made[i] + s0.gone[i] >= s.gone[i] + s0.made[i]
  }

  /** The books of one write: every generation but its own staged one and the predecessor. */
  ghost predicate Books(s0: State, s: State, p: Progress, q: Request) {
    forall i: Inode {:trigger Covered(s0, s, p, i)} ::
      i != p.staged && (q.expected.Some? ==> i != q.expected.value.inode) ==> Covered(s0, s, p, i)
  }

  /** How the predecessor's links stand, from what this write did: it linked something aside, removed
      a link while vacating the name, linked back what was aside, dropped it. */
  function Balance(p: Progress, e: Inode): int {
    (if p.aside == Some(e) then 1 + p.relinked - Count(!p.oldLinked) else 0) - Count(p.vacated)
  }

  /** The predecessor was aside and the write let go of it without linking it back. */
  predicate Dropped(p: Progress, e: Inode) {
    p.aside == Some(e) && !p.oldLinked && p.relinked == 0
  }

  /** Vacating the name cost the predecessor a link that this write does not hold: another generation
      was aside, or the predecessor was and has been dropped. */
  predicate Lost(p: Progress, e: Inode) {
    p.vacated && (p.aside != Some(e) || Dropped(p, e))
  }

  /** What the write remembers of the predecessor is what the directory shows. */
  ghost predicate Remembers(s: State, p: Progress) {
    && (p.oldLinked ==> p.aside.Some? && p.old_ in s.private && s.private[p.old_] == p.aside.value)
    && (p.oldIdentity.Some? ==> p.oldIdentity == p.aside)
  }

  /** The predecessor's account: its ledger is exactly the balance; it was dropped only where another
      generation was found; and vacating removed something other than what was aside only if others
      rename or link files that are there. */
  ghost predicate Account(w: Writers, s0: State, s: State, p: Progress, q: Request) {
    q.expected.Some? ==>
      var e := q.expected.value.inode;
      && s.made[e] + s0.gone[e] == s.gone[e] + s0.made[e] + Balance(p, e)
      && Remembers(s, p)
      && (Dropped(p, e) ==> p.superseded.Some? && p.superseded.value != e)
      && (FreshOnly(w) && p.vacated ==> p.aside == Some(e))
  }

  lemma BalanceIff(w: Writers, s0: State, s: State, p: Progress, q: Request)
    requires q.expected.Some? && Account(w, s0, s, p, q)
    ensures var e := q.expected.value.inode; Square(s0, s, e) <==> !Lost(p, e)
  {}

  /** A stretch that rewrote no file and left private names only where they were, at pending or
      predecessor names, or leading to the staged generation. */
  ghost predicate Grows(s: State, t: State, staged: Inode) {
    && FilesKept(s, t)
    && forall tag :: tag in t.private ==> Origin(s, tag, t.private[tag], staged)
  }

  predicate Origin(s: State, tag: Tag, i: Inode, staged: Inode) {
    || (tag in s.private && s.private[tag] == i)
    || tag.role == CleanupPending || tag.role == ControlOld || i == staged
  }

  lemma GrowsTrans(s: State, t: State, u: State, staged: Inode)
    requires Grows(s, t, staged) && Grows(t, u, staged)
    ensures Grows(s, u, staged)
  {
    forall tag | tag in u.private ensures Origin(s, tag, u.private[tag], staged) {
      assert Origin(t, tag, u.private[tag], staged);
      assert tag in t.private ==> Origin(s, tag, t.private[tag], staged);
    }
  }

  /** The staging names, where they exist, lead to the staged generation. */
  predicate Staging(s: State, p: Progress) {
    && (p.stage in s.private ==> s.private[p.stage] == p.staged)
    && (p.new_ in s.private ==> s.private[p.new_] == p.staged)
  }

  lemma StagingStays(s: State, t: State, p: Progress)
    requires IsControl(p) && Staging(s, p) && Grows(s, t, p.staged)
    ensures Staging(t, p)
  {
    assert p.stage in t.private ==> Origin(s, p.stage, t.private[p.stage], p.staged);
    assert p.new_ in t.private ==> Origin(s, p.new_, t.private[p.new_], p.staged);
  }

  /** A stretch that made and removed no link but those of the staged generation. */
  ghost predicate NoLoss(s: State, t: State, p: Progress) {
    && Valid(t) && Grows(s, t, p.staged)
    && (p.old_ in s.private <==> p.old_ in t.private)
    && (p.old_ in s.private ==> t.private[p.old_] == s.private[p.old_])
    && (forall i: Inode {:trigger t.gone[i]} {:trigger t.made[i]} ::
          i != p.staged ==> t.made[i] == s.made[i] && t.gone[i] == s.gone[i])
  }

  lemma NoLossTrans(s: State, t: State, u: State, p: Progress)
    requires NoLoss(s, t, p) && NoLoss(t, u, p)
    ensures NoLoss(s, u, p)
  {
    hide Grows;
    GrowsTrans(s, t, u, p.staged);
  }

  lemma NoLossBooks(s0: State, s: State, t: State, p: Progress, i: Inode)
    requires NoLoss(s, t, p) && i != p.staged
    ensures Covered(s0, s, p, i) ==> Covered(s0, t, p, i)
    ensures Square(s0, s, i) ==> Square(s0, t, i)
  {}

  lemma UndisturbedNoLoss(s: State, t: State, p: Progress)
    requires Undisturbed(s, t)
    ensures NoLoss(s, t, p)
  {}

  /** An owned removal of the staged generation touches nothing else. */
  lemma RemoveStaged(w: Writers, s: State, name: Name, p: Progress, o: Owner, q: Request)
    requires Lawful(w) && Valid(s) && IsControl(p) && o.inode == p.staged
    requires name.Public? || name == Private(p.stage) || name == Private(p.new_)
    ensures NoLoss(s, RemoveOwned(w, s, name, o, q.tries, NoFault).s, p)
  {
    hide RemoveOwned;
    RemoveOwnedConserves(w, s, name, o, q.tries, NoFault);
  }

  lemma DropStagingsKeep(w: Writers, s: State, p: Progress, q: Request)
    requires Lawful(w) && Valid(s) && IsControl(p)
    ensures NoLoss(s, DropStagings(w, s, p, q), p)
  {
    hide DropStaging, RemoveOwned, Balances;
    var o := if p.verified then OwnStaged(p, q) else Owner(Regular, p.staged, None, None);
    var stage1 := DropStaging(w, DropStep(s, p.stageLinked), p.stage, o, q);
    DropStagingKeeps(w, DropStep(s, p.stageLinked), p, p.stage, o, q);
    var new1 := DropStaging(w, DropStep(stage1.s, p.newLinked), p.new_, o, q);
    DropStagingKeeps(w, DropStep(stage1.s, p.newLinked), p, p.new_, o, q);
    var stage2 := DropStaging(w, DropStep(new1.s, stage1.linked), p.stage, OwnStaged(p, q), q);
    DropStagingKeeps(w, DropStep(new1.s, stage1.linked), p, p.stage, OwnStaged(p, q), q);
    DropStagingKeeps(w, DropStep(stage2.s, new1.linked), p, p.new_, OwnStaged(p, q), q);
    NoLossTrans(s, stage1.s, new1.s, p);
    NoLossTrans(s, new1.s, stage2.s, p);
    NoLossTrans(s, stage2.s, DropStagings(w, s, p, q), p);
  }

  lemma DropStagingKeeps(w: Writers, d: DropStep, p: Progress, tag: Tag, o: Owner, q: Request)
    requires Lawful(w) && Valid(d.s) && IsControl(p) && (tag == p.stage || tag == p.new_) && o.inode == p.staged
    ensures NoLoss(d.s, DropStaging(w, d, tag, o, q).s, p)
  {
    if d.linked {
      RemoveStaged(w, d.s, Private(tag), p, o, q);
    }
  }

  // ---------------------------------------------------------------- staging and exposing

  /** What staging, from `s` on, may leave behind. */
  ghost predicate StagedFrom(s: State, ph: Phase, q: Request) {
    && IsControl(ph.p) && ph.p.staged >= s.next && NoLoss(s, ph.s, ph.p)
    && !ph.p.oldLinked && ph.p.oldIdentity.None? && !ph.p.published
    && ph.p.aside.None? && !ph.p.vacated && ph.p.relinked == 0 && ph.p.superseded.None?
    && (ph.ok ==> ph.p.staged in ph.s.files && ph.s.files[ph.p.staged].bytes == q.bytes && Staging(ph.s, ph.p))
  }

  lemma StageKeeps(w: Writers, s: State, q: Request)
    requires Lawful(w) && Valid(s)
    ensures StagedFrom(s, Stage(w, s, q), q)
  {
    hide StageCreate, Grows, Balances;
    var s0 := s.(drawn := s.drawn + 3);
    SameLinks(s, s0);
    ValidDrawn(s);
    var s1 := w(s0);
    var p := Names(s).(staged := s1.next);
    UndisturbedNoLoss(s, s1, p);
    StageCreateKeeps(w, s1, p, q);
    NoLossTrans(s, s1, Stage(w, s, q).s, p);
  }

  lemma ValidDrawn(s: State)
    requires Valid(s)
    ensures Valid(s.(drawn := s.drawn + 3))
  {
    SameLinks(s, s.(drawn := s.drawn + 3));
  }

  /** The flags staging may move. */
  predicate SameNames(a: Progress, b: Progress) {
    b == a.(stageLinked := b.stageLinked, newLinked := b.newLinked, verified := b.verified)
  }

  lemma StageCreateKeeps(w: Writers, s: State, p: Progress, q: Request)
    requires Lawful(w) && Valid(s) && IsControl(p) && p.staged == s.next
    ensures
      var ph := StageCreate(w, s, p, q);
      && NoLoss(s, ph.s, p) && SameNames(p, ph.p)
      && (ph.ok ==> p.staged in ph.s.files && ph.s.files[p.staged].bytes == q.bytes && Staging(ph.s, p))
  {
    hide StageLink, NLink, Balances;
    if p.stage !in s.private {
      var s1 := Create(s, p.stage, q.bytes, q.mtime);
      CreateKeeps(s, p.stage, q.bytes, q.mtime);
      assert NoLoss(s, s1, p);
      var s2 := w(s1);
      UndisturbedNoLoss(s1, s2, p);
      NoLossTrans(s, s1, s2, p);
      StageLinkKeeps(w, s2, p.(stageLinked := true), q);
      NoLossTrans(s, s2, StageCreate(w, s, p, q).s, p);
    }
  }

  lemma StageLinkKeeps(w: Writers, s: State, p: Progress, q: Request)
    requires Lawful(w) && Valid(s) && IsControl(p) && (p.stage in s.private ==> s.private[p.stage] == p.staged)
    ensures
      var ph := StageLink(w, s, p, q);
      && NoLoss(s, ph.s, p) && SameNames(p, ph.p)
      && (ph.ok ==> p.staged in ph.s.files && ph.s.files[p.staged].bytes == q.bytes && Staging(ph.s, p))
  {
    hide StageClaim, NLink, Balances;
    if p.new_ !in s.private && p.stage in s.private {
      LinkKeeps(s, Private(p.stage), Private(p.new_));
      var s1 := Link(s, Private(p.stage), Private(p.new_));
      assert NoLoss(s, s1, p);
      StageClaimKeeps(w, s1, p.(newLinked := true), q);
      NoLossTrans(s, s1, StageLink(w, s, p, q).s, p);
    }
  }

  lemma StageClaimKeeps(w: Writers, s: State, p: Progress, q: Request)
    requires Lawful(w) && Valid(s) && IsControl(p) && Staging(s, p)
    ensures
      var ph := StageClaim(w, s, p, q);
      && NoLoss(s, ph.s, p) && ph.p == p.(stageLinked := ph.p.stageLinked, verified := ph.p.verified)
      && (ph.ok ==> p.staged in ph.s.files && ph.s.files[p.staged].bytes == q.bytes && Staging(ph.s, p))
  {
    hide RemoveOwned, Read, Balances, Grows, Staging;
    RemoveStaged(w, s, Private(p.stage), p, OwnStaged(p, q), q);
    var removal := RemoveOwned(w, s, Private(p.stage), OwnStaged(p, q), q.tries, NoFault);
    if removal.r == Removed {
      ReadKeeps(w, removal.s, Private(p.new_), |q.bytes|);
      UndisturbedNoLoss(removal.s, StageClaim(w, s, p, q).s, p);
      NoLossTrans(s, removal.s, StageClaim(w, s, p, q).s, p);
      StagingStays(s, StageClaim(w, s, p, q).s, p);
    }
  }

  /** Success of the last phase: the public name holds the new generation, alone. */
  ghost predicate Exposed(t: State, p: Progress, q: Request) {
    && q.text in t.public && t.public[q.text] == p.staged && NLink(t, p.staged) == 1
    && p.staged in t.files && t.files[p.staged].kind == Regular && t.files[p.staged].bytes == q.bytes
  }

  /** Reading loses nothing; an exact reading says what is there. */
  lemma ReadExact(w: Writers, s: State, p: Progress, q: Request)
    requires Lawful(w) && Valid(s)
    ensures
      var read := Read(w, s, Public(q.text), |q.bytes|);
      && NoLoss(s, read.s, p)
      && (Exact(read.seen, p.staged, |q.bytes|, Sha256(q.bytes)) ==> Exposed(read.s, p, q))
  {
    hide Read, Balances, NLink;
    ReadKeeps(w, s, Public(q.text), |q.bytes|);
    UndisturbedNoLoss(s, Read(w, s, Public(q.text), |q.bytes|).s, p);
  }

  lemma ConfirmKeeps(w: Writers, s: State, p: Progress, q: Request)
    requires Lawful(w) && Valid(s) && IsControl(p)
    ensures
      var ph := ConfirmNew(w, s, p, q);
      && NoLoss(s, ph.s, p) && ph.p == p.(newLinked := ph.p.newLinked)
      && (ph.ok ==> Exposed(ph.s, p, q))
  {
    hide RemoveOwned, Read, Balances, NLink, Exposed, Exact, Grows, Settled, Undisturbed;
    RemoveStaged(w, s, Private(p.new_), p, OwnStaged(p, q), q);
    var removal := RemoveOwned(w, s, Private(p.new_), OwnStaged(p, q), q.tries, NoFault);
    if removal.r == Removed {
      var first := Read(w, removal.s, Public(q.text), |q.bytes|);
      ReadExact(w, removal.s, p, q);
      NoLossTrans(s, removal.s, first.s, p);
      var second := Read(w, first.s, Public(q.text), |q.bytes|);
      ReadExact(w, first.s, p, q);
      NoLossTrans(s, first.s, second.s, p);
    }
  }

  lemma ExposeKeeps(w: Writers, s: State, p: Progress, q: Request)
    requires Lawful(w) && Valid(s) && IsControl(p) && Staging(s, p)
    ensures
      var ph := Expose(w, s, p, q);
      && NoLoss(s, ph.s, p)
      && ph.p == p.(newLinked := ph.p.newLinked, published := ph.p.published)
      && (ph.ok ==> Exposed(ph.s, p, q) && q.text !in w(s).public)
  {
    hide ConfirmNew, RemoveOwned, Read, NLink, Touch, Balances, Grows, NoLoss;
    var s1 := w(s);
    UndisturbedNoLoss(s, s1, p);
    if !Has(s1, Public(q.text)) && p.new_ in s1.private {
      var s2 := Link(s1, Private(p.new_), Public(q.text));
      LinkKeeps(s1, Private(p.new_), Public(q.text));
      LinkedStaged(s, s1, p, q);
      NoLossTrans(s, s1, s2, p);
      ConfirmKeeps(w, s2, p.(published := true), q);
      SameNoLoss(s2, ConfirmNew(w, s2, p.(published := true), q).s, p.(published := true), p);
      NoLossTrans(s, s2, Expose(w, s, p, q).s, p);
    }
  }

  lemma SameNoLoss(s: State, t: State, p: Progress, p1: Progress)
    requires NoLoss(s, t, p) && p1.staged == p.staged && p1.old_ == p.old_
    ensures NoLoss(s, t, p1)
  {
    hide Balances;
  }

  lemma LinkedStaged(s: State, s1: State, p: Progress, q: Request)
    requires IsControl(p) && Staging(s, p) && NoLoss(s, s1, p) && p.new_ in s1.private
    requires Valid(Link(s1, Private(p.new_), Public(q.text)))
    ensures NoLoss(s1, Link(s1, Private(p.new_), Public(q.text)), p)
  {
    hide Balances, NLink;
    StagingStays(s, s1, p);
  }

  // ---------------------------------------------------------------- the predecessor

  /** Both halves of the books. */
  ghost predicate Ledger(w: Writers, s0: State, s: State, p: Progress, q: Request) {
    Books(s0, s, p, q) && Account(w, s0, s, p, q)
  }

  /** Dropping what is aside is accounted for: it was linked back, or another generation was found. */
  predicate MayDrop(p: Progress, q: Request)
    requires q.expected.Some?
  {
    var e := q.expected.value.inode;
    p.aside == Some(e) && p.relinked == 0 ==> p.superseded.Some? && p.superseded.value != e
  }

  lemma DropOldKeeps(w: Writers, s0: State, s: State, p: Progress, q: Request)
    requires Lawful(w) && Valid(s) && IsControl(p) && p.oldLinked && p.oldIdentity.Some? && q.expected.Some?
    requires Ledger(w, s0, s, p, q) && MayDrop(p, q)
    ensures
      var step := DropOld(w, s, p, q);
      && Valid(step.s) && Grows(s, step.s, p.staged) && step.p == p.(oldLinked := step.p.oldLinked)
      && Ledger(w, s0, step.s, step.p, q)
  {
    hide RemoveOwned, Balances, Evolves, Books, Account, Grows;
    var o := Owner(Regular, p.oldIdentity.value, Some(q.expected.value.size), Some(q.expected.value.digest));
    RemoveOwnedConserves(w, s, Private(p.old_), o, q.tries, NoFault);
    RemovedGrows(w, s, Private(p.old_), o, q, p.staged);
    LetGo(w, s0, s, DropOld(w, s, p, q).s, p, DropOld(w, s, p, q).p, q);
  }

  /** The books after letting go of what is aside, or failing to. */
  lemma LetGo(w: Writers, s0: State, s: State, t: State, p: Progress, p1: Progress, q: Request)
    requires p.oldLinked && p.oldIdentity.Some? && q.expected.Some? && Ledger(w, s0, s, p, q) && MayDrop(p, q)
    requires p1 == p.(oldLinked := p1.oldLinked) && t.made == s.made
    requires if p1.oldLinked then t.gone == s.gone && t.private == s.private else t.gone == s.gone + multiset{p.oldIdentity.value}
    ensures Ledger(w, s0, t, p1, q)
  {
    hide FreshOnly;
    forall i: Inode | i != p.staged && i != q.expected.value.inode
      ensures Covered(s0, t, p1, i)
    {
      assert Covered(s0, s, p, i);
    }
  }

  /** An owned removal leaves a private name only where it was or at a pending name. */
  lemma RemovedGrows(w: Writers, s: State, name: Name, o: Owner, q: Request, staged: Inode)
    requires Lawful(w) && Valid(s) && !IsPending(name)
    ensures Grows(s, RemoveOwned(w, s, name, o, q.tries, NoFault).s, staged)
  {
    hide RemoveOwned, Balances;
    RemoveOwnedConserves(w, s, name, o, q.tries, NoFault);
  }

  /** Restoring the predecessor costs no other generation a link, and costs the predecessor one
      only when another generation was found at the public name. */
  lemma RestoreOldKeeps(w: Writers, s0: State, s: State, p: Progress, q: Request)
    requires Lawful(w) && Valid(s) && IsControl(p) && Ledger(w, s0, s, p, q)
    ensures RestoredFrom(w, s0, s, p, q, RestoreOld(w, s, p, q))
  {
    hide ReturnOld, Read, Balances, Ledger, Grows, Evolves;
    if p.oldLinked && p.oldIdentity.Some? && q.expected.Some? {
      var e := q.expected.value;
      var read := Read(w, s, Private(p.old_), MAX_CONTROL_BYTES);
      ReadKeeps(w, s, Private(p.old_), MAX_CONTROL_BYTES);
      StillLedger(w, s0, s, read.s, p, q);
      if Exact(read.seen, p.oldIdentity.value, e.size, e.digest) {
        ReturnOldKeeps(w, s0, read.s, p, q);
        GrowsTrans(s, read.s, RestoreOld(w, s, p, q).s, p.staged);
      }
    } else {
      SelfGrows(s, p.staged);
    }
  }

  lemma SelfGrows(s: State, staged: Inode)
    ensures Grows(s, s, staged)
  {}

  /** What giving the predecessor back, from `s` on, leaves behind. */
  ghost predicate RestoredFrom(w: Writers, s0: State, s: State, p: Progress, q: Request, step: OldStep) {
    && Valid(step.s) && Grows(s, step.s, p.staged) && Ledger(w, s0, step.s, step.p, q)
    && step.p == p.(oldLinked := step.p.oldLinked, relinked := step.p.relinked, superseded := step.p.superseded)
  }

  lemma ReturnOldKeeps(w: Writers, s0: State, s: State, p: Progress, q: Request)
    requires Lawful(w) && Valid(s) && IsControl(p) && Ledger(w, s0, s, p, q)
    requires p.oldLinked && p.oldIdentity.Some? && q.expected.Some?
    requires p.old_ in s.private && NLink(s, s.private[p.old_]) == 1
    ensures RestoredFrom(w, s0, s, p, q, ReturnOld(w, w(s), p, q))
  {
    hide DropOld, Read, NLink, Balances, Ledger, Grows, Evolves;
    var s1 := w(s);
    StillLedger(w, s0, s, s1, p, q);
    if Has(s1, Public(q.text)) {
      var p1 := p.(superseded := Some(s1.public[q.text]));
      NotBack(s, s1, p, q.text);
      FoundSuperseded(w, s0, s1, p, p1, q);
      DropOldKeeps(w, s0, s1, p1, q);
      GrowsTrans(s, s1, DropOld(w, s1, p1, q).s, p.staged);
    } else if p.old_ in s1.private {
      RelinkKeeps(w, s0, s1, p, q);
      GrowsTrans(s, s1, ReturnOld(w, s1, p, q).s, p.staged);
    }
  }

  lemma FoundSuperseded(w: Writers, s0: State, s: State, p: Progress, p1: Progress, q: Request)
    requires Ledger(w, s0, s, p, q) && q.expected.Some? && p.oldLinked && p.old_ in s.private
    requires p1 == p.(superseded := p1.superseded) && p1.superseded.Some? && p1.superseded.value != s.private[p.old_]
    ensures Ledger(w, s0, s, p1, q) && MayDrop(p1, q)
  {
    SameBooks(s0, s, p, p1, q);
  }

  /** What others put at the name since is not the generation we alone still hold. */
  lemma NotBack(s: State, s1: State, p: Progress, text: string)
    requires Valid(s) && Undisturbed(s, s1) && p.old_ in s.private && text in s1.public
    requires NLink(s, s.private[p.old_]) == 1
    ensures s1.public[text] != s.private[p.old_]
  {
    hide NLink, Balances;
    if s.private[p.old_] in s.public.Values {
      var name :| name in s.public && s.public[name] == s.private[p.old_];
      OneNameOnly(s, name, p.old_);
    }
  }

  /** An inode with one link is not at two names. */
  lemma OneNameOnly(s: State, text: string, tag: Tag)
    requires text in s.public && tag in s.private && s.public[text] == s.private[tag]
    ensures NLink(s, s.public[text]) >= 2
  {
    assert text in Keys(s.public, s.public[text]);
    assert tag in Keys(s.private, s.public[text]);
  }

  lemma StillLedger(w: Writers, s0: State, s: State, t: State, p: Progress, q: Request)
    requires Undisturbed(s, t) && Ledger(w, s0, s, p, q)
    ensures Ledger(w, s0, t, p, q) && Grows(s, t, p.staged)
  {
    forall i: Inode | i != p.staged && (q.expected.Some? ==> i != q.expected.value.inode)
      ensures Covered(s0, t, p, i)
    {
      assert Covered(s0, s, p, i);
    }
  }

  lemma RelinkKeeps(w: Writers, s0: State, s: State, p: Progress, q: Request)
    requires Lawful(w) && Valid(s) && IsControl(p) && p.oldLinked && p.oldIdentity.Some? && q.expected.Some?
    requires Ledger(w, s0, s, p, q) && !Has(s, Public(q.text)) && p.old_ in s.private
    ensures RestoredFrom(w, s0, s, p, q, ReturnOld(w, s, p, q))
  {
    hide DropOld, Read, Balances, Ledger, Grows, Evolves, NLink;
    var s2 := Link(s, Private(p.old_), Public(q.text));
    var p2 := p.(relinked := p.relinked + 1);
    LinkKeeps(s, Private(p.old_), Public(q.text));
    Relinked(w, s0, s, p, q);
    DropOldKeeps(w, s0, s2, p2, q);
    var step := DropOld(w, s2, p2, q);
    GrowsTrans(s, s2, step.s, p.staged);
    var check := Read(w, step.s, Public(q.text), MAX_CONTROL_BYTES);
    ReadKeeps(w, step.s, Public(q.text), MAX_CONTROL_BYTES);
    StillLedger(w, s0, step.s, check.s, step.p, q);
    GrowsTrans(s, step.s, check.s, p.staged);
  }

  lemma Relinked(w: Writers, s0: State, s: State, p: Progress, q: Request)
    requires p.oldLinked && q.expected.Some? && Ledger(w, s0, s, p, q) && p.old_ in s.private
    ensures
      var s2, p2 := Link(s, Private(p.old_), Public(q.text)), p.(relinked := p.relinked + 1);
      Ledger(w, s0, s2, p2, q) && MayDrop(p2, q) && Grows(s, s2, p.staged)
  {
    var s2, p2 := Link(s, Private(p.old_), Public(q.text)), p.(relinked := p.relinked + 1);
    forall i: Inode | i != p.staged && i != q.expected.value.inode
      ensures Covered(s0, s2, p2, i)
    {
      assert Covered(s0, s, p, i);
    }
  }

  /** The predecessor is held, whole, under the private name. */
  ghost predicate PredecessorHeld(t: State, p: Progress, e: Snap) {
    && p.oldLinked && p.old_ in t.private && t.private[p.old_] == e.inode && e.inode in t.files
    && t.files[e.inode].kind == Regular && t.files[e.inode].mtime == e.mtime
    && |t.files[e.inode].bytes| == e.size && Sha256(t.files[e.inode].bytes) == e.digest
  }

  /** What claiming and vacating the predecessor, from `s` on, leaves behind. */
  ghost predicate ClaimedFrom(w: Writers, s0: State, s: State, p: Progress, q: Request, ph: Phase)
    requires q.expected.Some?
  {
    && Valid(ph.s) && Grows(s, ph.s, p.staged) && Ledger(w, s0, ph.s, ph.p, q)
    && SameStaging(p, ph.p)
    && (ph.ok ==> PredecessorHeld(ph.s, ph.p, q.expected.value))
  }

  /** Only what concerns the predecessor may differ. */
  predicate SameStaging(p: Progress, p1: Progress) {
    p1 == p.(oldLinked := p1.oldLinked, oldIdentity := p1.oldIdentity, aside := p1.aside, vacated := p1.vacated,
             relinked := p1.relinked, superseded := p1.superseded)
  }

  /** The predecessor, or what was in its place, is aside and the public name not yet vacated. */
  ghost predicate SetAside(s: State, p: Progress, q: Request)
    requires q.expected.Some?
  {
    && p.oldLinked && !p.vacated && p.oldIdentity.None?
    && q.text in s.public && p.aside == Some(s.public[q.text])
    && q.expected.value.inode < s.next
  }

  lemma VacateKeeps(w: Writers, s0: State, s: State, p: Progress, q: Request)
    requires Lawful(w) && Valid(s) && IsControl(p) && q.expected.Some? && SetAside(s, p, q)
    requires Ledger(w, s0, s, p, q)
    ensures
      var step := RemoveOwned(w, s, Public(q.text), OwnExpected(q.expected.value), q.tries, NoFault);
      && Valid(step.s) && Grows(s, step.s, p.staged)
      && Ledger(w, s0, step.s, p.(vacated := step.r.Removed?), q)
  {
    hide RemoveOwned, Balances, Evolves, FreshOnly, Books, Account, Grows;
    var e := q.expected.value;
    RemoveOwnedConserves(w, s, Public(q.text), OwnExpected(e), q.tries, NoFault);
    RemovedGrows(w, s, Public(q.text), OwnExpected(e), q, p.staged);
    var step := RemoveOwned(w, s, Public(q.text), OwnExpected(e), q.tries, NoFault);
    if FreshOnly(w) {
      ReserveFresh(w, s, q.text, q.tries);
    }
    Vacated(w, s0, s, step.s, p, step.r.Removed?, q);
  }

  /** The books after the name was vacated, or not. */
  lemma Vacated(w: Writers, s0: State, s: State, t: State, p: Progress, removed: bool, q: Request)
    requires IsControl(p) && q.expected.Some? && SetAside(s, p, q) && Ledger(w, s0, s, p, q)
    requires t.made == s.made && t.gone == if removed then s.gone + multiset{q.expected.value.inode} else s.gone
    requires p.old_ in s.private ==> p.old_ in t.private && t.private[p.old_] == s.private[p.old_]
    requires FreshOnly(w) && removed ==> p.aside == Some(q.expected.value.inode)
    ensures Ledger(w, s0, t, p.(vacated := removed), q)
  {
    hide FreshOnly;
    forall i: Inode | i != p.staged && i != q.expected.value.inode
      ensures Covered(s0, t, p.(vacated := removed), i)
    {
      assert Covered(s0, s, p, i);
    }
  }

  lemma VacateOldKeeps(w: Writers, s0: State, s: State, p: Progress, q: Request)
    requires Lawful(w) && Valid(s) && IsControl(p) && q.expected.Some? && SetAside(s, p, q)
    requires Ledger(w, s0, s, p, q)
    ensures ClaimedFrom(w, s0, s, p, q, VacateOld(w, s, p, q))
  {
    hide RemoveOwned, CheckOld, Balances, Ledger, Grows;
    VacateKeeps(w, s0, s, p, q);
    var vacated := RemoveOwned(w, s, Public(q.text), OwnExpected(q.expected.value), q.tries, NoFault);
    var p1 := p.(vacated := vacated.r.Removed?);
    CheckOldKeeps(w, s0, vacated.s, p1, q);
    GrowsTrans(s, vacated.s, CheckOld(w, vacated.s, p1, q).s, p.staged);
  }

  lemma CheckOldKeeps(w: Writers, s0: State, s: State, p: Progress, q: Request)
    requires Lawful(w) && Valid(s) && IsControl(p) && q.expected.Some? && p.oldLinked && p.oldIdentity.None?
    requires Ledger(w, s0, s, p, q)
    ensures ClaimedFrom(w, s0, s, p, q, CheckOld(w, s, p, q))
  {
    hide Read, RestoreOld, Balances, Grows, Ledger, Evolves;
    var read := Read(w, s, Private(p.old_), MAX_CONTROL_BYTES);
    ReadKeeps(w, s, Private(p.old_), MAX_CONTROL_BYTES);
    StillLedger(w, s0, s, read.s, p, q);
    if read.seen.Some? {
      var p1 := p.(oldIdentity := Some(read.seen.value.inode));
      Identified(w, s0, read.s, p, p1, q);
      if !Matches(read.seen, q.expected.value) {
        RestoreOldKeeps(w, s0, read.s, p1, q);
        GrowsTrans(s, read.s, RestoreOld(w, read.s, p1, q).s, p.staged);
      }
    }
  }

  lemma Identified(w: Writers, s0: State, s: State, p: Progress, p1: Progress, q: Request)
    requires Ledger(w, s0, s, p, q) && q.expected.Some? && p.oldLinked && p.old_ in s.private
    requires p1 == p.(oldIdentity := Some(s.private[p.old_]))
    ensures Ledger(w, s0, s, p1, q)
  {
    SameBooks(s0, s, p, p1, q);
  }

  lemma SameBooks(s0: State, s: State, p: Progress, p1: Progress, q: Request)
    requires Books(s0, s, p, q) && p1.staged == p.staged && p1.old_ == p.old_ && p1.oldLinked == p.oldLinked
    ensures Books(s0, s, p1, q)
  {
    forall i: Inode | i != p.staged && (q.expected.Some? ==> i != q.expected.value.inode)
      ensures Covered(s0, s, p1, i)
    {
      assert Covered(s0, s, p, i);
    }
  }

  /** Nothing is aside yet. */
  predicate NothingAside(p: Progress) {
    !p.oldLinked && p.oldIdentity.None? && p.aside.None? && !p.vacated && p.relinked == 0 && p.superseded.None?
  }

  lemma ClaimOldKeeps(w: Writers, s0: State, s: State, p: Progress, q: Request)
    requires Lawful(w) && Valid(s) && IsControl(p) && q.expected.Some? && NothingAside(p)
    requires Ledger(w, s0, s, p, q) && q.expected.value.inode < s.next
    ensures ClaimedFrom(w, s0, s, p, q, ClaimOld(w, s, p, q))
  {
    hide VacateOld, Balances, NLink, Touch, Ledger, Grows;
    var s1 := w(s);
    StillLedger(w, s0, s, s1, p, q);
    if Has(s1, Public(q.text)) && p.old_ !in s1.private {
      var s2 := Link(s1, Public(q.text), Private(p.old_));
      var p1 := p.(oldLinked := true, aside := Some(s1.public[q.text]));
      LinkKeeps(s1, Public(q.text), Private(p.old_));
      LinkedAside(w, s0, s1, p, p1, q);
      GrowsTrans(s, s1, s2, p.staged);
      VacateOldKeeps(w, s0, s2, p1, q);
      GrowsTrans(s, s2, VacateOld(w, s2, p1, q).s, p.staged);
    }
  }

  lemma LinkedAside(w: Writers, s0: State, s: State, p: Progress, p1: Progress, q: Request)
    requires IsControl(p) && q.expected.Some? && NothingAside(p) && Ledger(w, s0, s, p, q) && q.text in s.public
    requires p1 == p.(oldLinked := true, aside := Some(s.public[q.text]))
    ensures var s2 := Link(s, Public(q.text), Private(p.old_)); Ledger(w, s0, s2, p1, q) && Grows(s, s2, p.staged)
  {
    var s2 := Link(s, Public(q.text), Private(p.old_));
    forall i: Inode | i != p.staged && i != q.expected.value.inode
      ensures Covered(s0, s2, p1, i)
    {
      assert Covered(s0, s, p, i);
    }
  }

  // ---------------------------------------------------------------- the theorem

  lemma CleanupKeeps(w: Writers, s0: State, s: State, p: Progress, q: Request)
    requires Lawful(w) && Valid(s) && IsControl(p) && Ledger(w, s0, s, p, q)
    requires q.expected.Some? ==> q.expected.value.inode != p.staged
    ensures
      var step := Cleanup(w, s, p, q);
      && Valid(step.s) && Grows(s, step.s, p.staged) && step.out.Failed? && step.out.p.staged == p.staged
      && Ledger(w, s0, step.s, step.out.p, q)
  {
    hide RemoveOwned, RestoreOld, DropStagings, Balances, Ledger, Grows, Evolves;
    var s1 := if p.published
              then RemoveOwned(w, s, Public(q.text), OwnStaged(p, q), q.tries, NoFault).s else s;
    if p.published {
      RemoveStaged(w, s, Public(q.text), p, OwnStaged(p, q), q);
      NoLossKeepsLedger(w, s0, s, s1, p, q);
    } else {
      SelfGrows(s, p.staged);
    }
    RestoreOldKeeps(w, s0, s1, p, q);
    var back := RestoreOld(w, s1, p, q);
    DropStagingsKeep(w, back.s, back.p, q);
    NoLossKeepsLedger(w, s0, back.s, DropStagings(w, back.s, back.p, q), back.p, q);
    GrowsTrans(s, s1, back.s, p.staged);
    GrowsTrans(s, back.s, DropStagings(w, back.s, back.p, q), p.staged);
  }

  lemma NoLossKeepsLedger(w: Writers, s0: State, s: State, t: State, p: Progress, q: Request)
    requires NoLoss(s, t, p) && Ledger(w, s0, s, p, q)
    requires q.expected.Some? ==> q.expected.value.inode != p.staged
    ensures Ledger(w, s0, t, p, q)
  {
    hide Grows, FreshOnly, Balances;
    forall i: Inode | i != p.staged && (q.expected.Some? ==> i != q.expected.value.inode)
      ensures Covered(s0, t, p, i)
    {
      assert Covered(s0, s, p, i);
      NoLossBooks(s0, s, t, p, i);
    }
    if q.expected.Some? {
      var e := q.expected.value.inode;
      assert t.made[e] == s.made[e] && t.gone[e] == s.gone[e];
    }
  }

  lemma PrecheckKeeps(w: Writers, s: State, q: Request)
    requires Lawful(w) && Valid(s)
    ensures
      var (t, go) := Precheck(w, s, q);
      && Undisturbed(s, t)
      && (go && q.expected.Some? ==> q.expected.value.inode < t.next)
  {
    hide Read, Balances;
    var s1 := w(s);
    if q.expected.Some? {
      ReadKeeps(w, s1, Public(q.text), MAX_CONTROL_BYTES);
      EvolvesTrans(s, s1, Read(w, s1, Public(q.text), MAX_CONTROL_BYTES).s);
    }
  }

  /** Exactly when the predecessor keeps its links, and what loses it one. */
  ghost predicate PredecessorExact(w: Writers, s: State, t: State, p: Progress, q: Request) {
    q.expected.Some? ==>
      var e := q.expected.value.inode;
      && (Square(s, t, e) <==> !Lost(p, e))
      && (Dropped(p, e) ==> p.superseded.Some? && p.superseded.value != e)
      && (FreshOnly(w) && Lost(p, e) ==> Dropped(p, e))
  }

  /** What every outcome of a write guarantees, whatever the others did meanwhile. */
  ghost predicate Kept(w: Writers, s: State, t: State, out: Outcome, q: Request) {
    && Valid(t)
    && (out.Refused? ==> Undisturbed(s, t))
    && (!out.Refused? ==> Ledger(w, s, t, out.p, q) && Grows(s, t, out.p.staged))
    && (out.Failed? ==> PredecessorExact(w, s, t, out.p, q))
    && (out.Published? ==>
          && Exposed(t, out.p, q) && out.p.staged >= s.next
          && (q.expected.Some? ==> PredecessorHeld(t, out.p, q.expected.value)))
  }

  lemma AccountIsExact(w: Writers, s: State, t: State, p: Progress, q: Request)
    requires Account(w, s, t, p, q)
    ensures PredecessorExact(w, s, t, p, q)
  {
    hide FreshOnly;
    if q.expected.Some? {
      BalanceIff(w, s, t, p, q);
    }
  }

  /** A stage of a write that other lemmas carry on from. */
  ghost predicate Sound(w: Writers, s0: State, ph: Phase, q: Request) {
    && Valid(ph.s) && IsControl(ph.p) && Ledger(w, s0, ph.s, ph.p, q) && Grows(s0, ph.s, ph.p.staged)
    && ph.p.staged >= s0.next
    && (q.expected.Some? ==> q.expected.value.inode != ph.p.staged)
  }

  lemma FinishKeeps(w: Writers, s: State, ph: Phase, q: Request)
    requires Lawful(w) && Sound(w, s, ph, q)
    requires ph.ok ==> Exposed(ph.s, ph.p, q)
    requires ph.ok && q.expected.Some? ==> PredecessorHeld(ph.s, ph.p, q.expected.value)
    ensures var step := Finish(w, ph, q); Kept(w, s, step.s, step.out, q)
  {
    hide Cleanup, Balances, Grows, Account, Books, Exposed, PredecessorHeld, PredecessorExact;
    if !ph.ok {
      CleanupKeeps(w, s, ph.s, ph.p, q);
      var step := Cleanup(w, ph.s, ph.p, q);
      GrowsTrans(s, ph.s, step.s, ph.p.staged);
      AccountIsExact(w, s, step.s, step.out.p, q);
    }
  }

  /** From the end of the claim to the end of the write. */
  lemma ExposeFinishKeeps(w: Writers, s0: State, ph: Phase, q: Request)
    requires Lawful(w) && Sound(w, s0, ph, q) && Staging(ph.s, ph.p)
    requires q.expected.Some? ==> PredecessorHeld(ph.s, ph.p, q.expected.value)
    ensures var step := Finish(w, Expose(w, ph.s, ph.p, q), q); Kept(w, s0, step.s, step.out, q)
  {
    hide Expose, Finish, Balances, Grows, Ledger, Staging, Kept, NLink;
    ExposeKeeps(w, ph.s, ph.p, q);
    var last := Expose(w, ph.s, ph.p, q);
    NoLossKeepsLedger(w, s0, ph.s, last.s, ph.p, q);
    GrowsTrans(s0, ph.s, last.s, ph.p.staged);
    SameLedger(w, s0, last.s, ph.p, last.p, q);
    if q.expected.Some? {
      StillHeld(ph.s, last.s, ph.p, last.p, q.expected.value);
    }
    FinishKeeps(w, s0, last, q);
  }

  lemma SameLedger(w: Writers, s0: State, s: State, p: Progress, p1: Progress, q: Request)
    requires Ledger(w, s0, s, p, q) && p1 == p.(newLinked := p1.newLinked, published := p1.published)
    ensures Ledger(w, s0, s, p1, q)
  {
    SameBooks(s0, s, p, p1, q);
  }

  lemma StillHeld(s: State, t: State, p: Progress, p1: Progress, e: Snap)
    requires PredecessorHeld(s, p, e) && NoLoss(s, t, p) && p1 == p.(newLinked := p1.newLinked, published := p1.published)
    ensures PredecessorHeld(t, p1, e)
  {
    hide Balances;
  }

  /** No lost update. However other writers interleave, a write that succeeds replaced exactly the
      predecessor it was told to expect, which it still holds; and whatever the outcome, it took
      from no other generation a link that others had made. On failure the predecessor too keeps
      its links, except exactly where the vacating removed one of them while another generation had
      been linked aside, or it was linked aside and dropped because another generation had taken its
      place. The first of these takes a rival that renames or links a file that is there. */
  lemma NoLostUpdate(w: Writers, s: State, q: Request)
    requires Lawful(w) && Valid(s)
    ensures var step := WriteBytes(w, s, q); Kept(w, s, step.s, step.out, q)
  {
    hide Precheck, Stage, ClaimOld, Expose, Finish, Balances, Ledger, Grows, Staging, Kept, PredecessorHeld, Evolves;
    PrecheckKeeps(w, s, q);
    var (s1, go) := Precheck(w, s, q);
    if go {
      StageKeeps(w, s1, q);
      var staged := Stage(w, s1, q);
      StageLedger(w, s, s1, staged, q);
      if !staged.ok {
        FinishKeeps(w, s, staged, q);
      } else if q.expected.None? {
        ExposeFinishKeeps(w, s, staged, q);
      } else {
        ClaimOldKeeps(w, s, staged.s, staged.p, q);
        var claimed := ClaimOld(w, staged.s, staged.p, q);
        GrowsTrans(s, staged.s, claimed.s, staged.p.staged);
        if claimed.ok {
          StagingStays(staged.s, claimed.s, staged.p);
          SameStagings(claimed.s, staged.p, claimed.p);
          ExposeFinishKeeps(w, s, claimed, q);
        } else {
          FinishKeeps(w, s, claimed, q);
        }
      }
    } else {
      RefusedKeeps(w, s, s1, q);
    }
  }

  lemma RefusedKeeps(w: Writers, s: State, t: State, q: Request)
    requires Undisturbed(s, t)
    ensures Kept(w, s, t, Refused, q)
  {}

  lemma SameStagings(s: State, p: Progress, p1: Progress)
    requires SameStaging(p, p1) && Staging(s, p)
    ensures Staging(s, p1)
  {}

  lemma StageLedger(w: Writers, s: State, s1: State, ph: Phase, q: Request)
    requires Undisturbed(s, s1) && StagedFrom(s1, ph, q)
    requires q.expected.Some? ==> q.expected.value.inode < s1.next
    ensures Sound(w, s, ph, q) && NothingAside(ph.p)
    ensures q.expected.Some? ==> q.expected.value.inode < ph.s.next
    ensures ph.ok ==> Staging(ph.s, ph.p)
  {
    hide FreshOnly, Balances;
    UndisturbedNoLoss(s, s1, ph.p);
    NoLossTrans(s, s1, ph.s, ph.p);
    forall i: Inode | i != ph.p.staged
      ensures Covered(s, ph.s, ph.p, i)
    {
      assert ph.s.made[i] == s.made[i] && ph.s.gone[i] == s.gone[i];
    }
    if q.expected.Some? {
      var e := q.expected.value.inode;
      assert ph.s.made[e] == s.made[e] && ph.s.gone[e] == s.gone[e];
    }
  }

  /** The generation a write published or staged, if it got that far. */
  predicate Own(out: Outcome, i: Inode) {
    !out.Refused? && out.p.staged == i
  }

  /** Where a generation of others may be found after a write: at a public name, at a pending or a
      predecessor name, or at a private name it had before. */
  predicate Findable(s: State, n: Name, i: Inode) {
    n.Public? || n.tag.role == CleanupPending || n.tag.role == ControlOld || (n.tag in s.private && s.private[n.tag] == i)
  }

  /** So a generation other writers made and have not removed is still linked when the write ends,
      where it can be found, provided this process owed it nothing before. */
  lemma RivalGenerationStaysLinked(w: Writers, s: State, q: Request, i: Inode)
    requires Lawful(w) && Valid(s) && s.gone[i] <= s.made[i]
    requires q.expected.Some? ==> i != q.expected.value.inode
    requires var step := WriteBytes(w, s, q);
             !Own(step.out, i) && step.s.rivalGone[i] < step.s.rivalMade[i]
    ensures var t := WriteBytes(w, s, q).s; exists n :: Has(t, n) && At(t, n) == i && Findable(s, n, i)
  {
    hide WriteBytes, Balances;
    NoLostUpdate(w, s, q);
    var step := WriteBytes(w, s, q);
    if !step.out.Refused? {
      assert Covered(s, step.s, step.out.p, i);
    }
    StandingGenerationIsLinked(step.s, i);
    var n :| Has(step.s, n) && At(step.s, n) == i;
    if n.Private? && !step.out.Refused? {
      assert Origin(s, n.tag, i, step.out.p.staged);
    }
    assert Findable(s, n, i);
  }

  // ---------------------------------------------------------------- others that only replace

  lemma ReadUnderReplacement(w: Writers, s: State, name: Name, max: nat)
    requires ReplaceOnly(w)
    ensures s.public.Keys <= Read(w, s, name, max).s.public.Keys
  {
    var s1 := w(s);
    var s2 := w(s1);
    assert s.public.Keys <= s1.public.Keys <= s2.public.Keys <= w(s2).public.Keys;
  }

  /** If the others never delete, the only way for the name to be vacant after the claim is that
      this write vacated it, removing the expected predecessor's own link. */
  lemma ClaimedMeansVacated(w: Writers, s: State, p: Progress, q: Request)
    requires Lawful(w) && Valid(s) && ReplaceOnly(w) && q.expected.Some?
    requires ClaimOld(w, s, p, q).ok
    ensures
      var t := ClaimOld(w, s, p, q).s;
      q.text in t.public || t.gone == s.gone + multiset{q.expected.value.inode}
  {
    hide VacateOld, Balances, NLink;
    var s1 := w(s);
    LinkKeeps(s1, Public(q.text), Private(p.old_));
    VacatedByUs(w, Link(s1, Public(q.text), Private(p.old_)), p.(oldLinked := true, aside := Some(s1.public[q.text])), q);
  }

  lemma VacatedByUs(w: Writers, s: State, p: Progress, q: Request)
    requires Lawful(w) && Valid(s) && ReplaceOnly(w) && q.expected.Some? && q.text in s.public
    requires VacateOld(w, s, p, q).ok
    ensures
      var t := VacateOld(w, s, p, q).s;
      q.text in t.public || t.gone == s.gone + multiset{q.expected.value.inode}
  {
    hide RemoveOwned, Read, RestoreOld, Balances, NLink, Evolves, PrivateNames, Matches;
    var o := OwnExpected(q.expected.value);
    RemoveOwnedConserves(w, s, Public(q.text), o, q.tries, NoFault);
    RemoveOwnedUnderReplacement(w, s, q.text, o, q.tries);
    var vacated := RemoveOwned(w, s, Public(q.text), o, q.tries, NoFault);
    ReadKeeps(w, vacated.s, Private(p.old_), MAX_CONTROL_BYTES);
    ReadUnderReplacement(w, vacated.s, Private(p.old_), MAX_CONTROL_BYTES);
  }

  /** With others that only create and replace, success means the write itself vacated the name,
      and that the one link it removed there was the expected predecessor's. */
  lemma SuccessVacatedThePredecessor(w: Writers, s: State, q: Request)
    requires Lawful(w) && Valid(s) && ReplaceOnly(w) && q.expected.Some?
    requires WriteBytes(w, s, q).out.Published?
    ensures
      var e := q.expected.value.inode;
      WriteBytes(w, s, q).s.gone[e] == s.gone[e] + 1
  {
    hide Precheck, Stage, ClaimOld, Expose, Balances;
    PrecheckKeeps(w, s, q);
    var (s1, _) := Precheck(w, s, q);
    StageKeeps(w, s1, q);
    var staged := Stage(w, s1, q);
    StageLedger(w, s, s1, staged, q);
    ClaimOldKeeps(w, s, staged.s, staged.p, q);
    ClaimedMeansVacated(w, staged.s, staged.p, q);
    var claimed := ClaimOld(w, staged.s, staged.p, q);
    StagingStays(staged.s, claimed.s, staged.p);
    ExposeKeeps(w, claimed.s, claimed.p, q);
    assert claimed.s.public.Keys <= w(claimed.s).public.Keys;
  }

  // ---------------------------------------------------------------- the procedure

  method ReadAt(d: Directory, name: Name, max: nat) returns (seen: Option<Seen>)
    modifies d
    ensures ReadStep(d.state, seen) == Read(d.w, old(d.state), name, max)
  {
    d.state := d.w(d.state);
    if !Has(d.state, name) || At(d.state, name) !in d.state.files {
      return None;
    }
    var i := At(d.state, name);
    var f := d.state.files[i];
    var before := Ctime(d.state, i);
    if f.kind != Regular || NLink(d.state, i) != 1 || |f.bytes| > max {
      return None;
    }
    d.state := d.w(d.state);
    if Ctime(d.state, i) != before || NLink(d.state, i) != 1 {
      return None;
    }
    d.state := d.w(d.state);
    if !Has(d.state, name) || At(d.state, name) != i || Ctime(d.state, i) != before || NLink(d.state, i) != 1 {
      return None;
    }
    return Some(Seen(i, f));
  }

  method PrecheckAt(d: Directory, q: Request) returns (go: bool)
    modifies d
    ensures (d.state, go) == Precheck(d.w, old(d.state), q)
  {
    d.state := d.w(d.state);
    var here := q.text in d.state.public;
    if here && (d.state.public[q.text] !in d.state.files || d.state.files[d.state.public[q.text]].kind != Regular
                || NLink(d.state, d.state.public[q.text]) != 1) {
      return false;
    }
    if here && q.mustNotExist {
      return false;
    }
    if q.expected.None? {
      return true;
    }
    if !here {
      return false;
    }
    var seen := ReadAt(d, Public(q.text), MAX_CONTROL_BYTES);
    return Matches(seen, q.expected.value);
  }

  method StageAt(d: Directory, q: Request) returns (p: Progress, ok: bool)
    modifies d
    ensures Phase(d.state, p, ok) == Stage(d.w, old(d.state), q)
  {
    p := Names(d.state);
    d.state := d.w(d.state.(drawn := d.state.drawn + 3));
    p := p.(staged := d.state.next);
    if p.stage in d.state.private {
      return p, false;
    }
    d.state := Create(d.state, p.stage, q.bytes, q.mtime);
    p := p.(stageLinked := true);
    d.state := d.w(d.state);
    if p.new_ in d.state.private || p.stage !in d.state.private {
      return p, false;
    }
    d.state := Link(d.state, Private(p.stage), Private(p.new_));
    p := p.(newLinked := true);
    var r := d.RemoveOwnedAt(Private(p.stage), OwnStaged(p, q), q.tries, NoFault);
    if r != Removed {
      return p, false;
    }
    var seen := ReadAt(d, Private(p.new_), |q.bytes|);
    ok := Exact(seen, p.staged, |q.bytes|, Sha256(q.bytes));
    p := p.(stageLinked := false, verified := ok);
  }

  method ClaimOldAt(d: Directory, p0: Progress, q: Request) returns (p: Progress, ok: bool)
    requires q.expected.Some?
    modifies d
    ensures Phase(d.state, p, ok) == ClaimOld(d.w, old(d.state), p0, q)
  {
    hide RemoveOwned, CheckOld, Link;
    p := p0;
    d.state := d.w(d.state);
    if q.text !in d.state.public || p.old_ in d.state.private {
      return p, false;
    }
    p := p.(oldLinked := true, aside := Some(d.state.public[q.text]));
    d.state := Link(d.state, Public(q.text), Private(p.old_));
    var r := d.RemoveOwnedAt(Public(q.text), OwnExpected(q.expected.value), q.tries, NoFault);
    if !(r.Removed? || r.Absent? || r.Restored?) {
      return p, false;
    }
    p := p.(vacated := r.Removed?);
    p, ok := CheckOldAt(d, p, q);
  }

  method CheckOldAt(d: Directory, p0: Progress, q: Request) returns (p: Progress, ok: bool)
    requires q.expected.Some?
    modifies d
    ensures Phase(d.state, p, ok) == CheckOld(d.w, old(d.state), p0, q)
  {
    hide Read, RestoreOld;
    p := p0;
    var seen := ReadAt(d, Private(p.old_), MAX_CONTROL_BYTES);
    if seen.None? {
      return p, false;
    }
    p := p.(oldIdentity := Some(seen.value.inode));
    ok := Matches(seen, q.expected.value);
    if !ok {
      var restored;
      p, restored := RestoreOldAt(d, p, q);
    }
  }

  method ExposeAt(d: Directory, p0: Progress, q: Request) returns (p: Progress, ok: bool)
    modifies d
    ensures Phase(d.state, p, ok) == Expose(d.w, old(d.state), p0, q)
  {
    p := p0;
    d.state := d.w(d.state);
    if q.text in d.state.public || p.new_ !in d.state.private {
      return p, false;
    }
    d.state := Link(d.state, Private(p.new_), Public(q.text));
    p := p.(published := true);
    var r := d.RemoveOwnedAt(Private(p.new_), OwnStaged(p, q), q.tries, NoFault);
    if r != Removed {
      return p, false;
    }
    p := p.(newLinked := false);
    var seen := ReadAt(d, Public(q.text), |q.bytes|);
    if !Exact(seen, p.staged, |q.bytes|, Sha256(q.bytes)) {
      return p, false;
    }
    seen := ReadAt(d, Public(q.text), |q.bytes|);
    ok := Exact(seen, p.staged, |q.bytes|, Sha256(q.bytes));
  }

  method RestoreOldAt(d: Directory, p0: Progress, q: Request) returns (p: Progress, ok: bool)
    modifies d
    ensures OldStep(d.state, p, ok) == RestoreOld(d.w, old(d.state), p0, q)
  {
    hide ReturnOld, Read;
    p := p0;
    if !p.oldLinked {
      return p, true;
    }
    if p.oldIdentity.None? || q.expected.None? {
      return p, false;
    }
    var e, identity := q.expected.value, p.oldIdentity.value;
    var seen := ReadAt(d, Private(p.old_), MAX_CONTROL_BYTES);
    if !Exact(seen, identity, e.size, e.digest) {
      return p, false;
    }
    d.state := d.w(d.state);
    p, ok := ReturnOldAt(d, p, q);
  }

  method ReturnOldAt(d: Directory, p0: Progress, q: Request) returns (p: Progress, ok: bool)
    requires p0.oldIdentity.Some? && q.expected.Some?
    modifies d
    ensures OldStep(d.state, p, ok) == ReturnOld(d.w, old(d.state), p0, q)
  {
    hide RemoveOwned, Read, Exact, Link;
    p := p0;
    var e, identity := q.expected.value, p.oldIdentity.value;
    var back := q.text !in d.state.public;
    if back {
      if p.old_ !in d.state.private {
        return p, false;
      }
      d.state := Link(d.state, Private(p.old_), Public(q.text));
      p := p.(relinked := p.relinked + 1);
    } else {
      p := p.(superseded := Some(d.state.public[q.text]));
    }
    var r := d.RemoveOwnedAt(Private(p.old_), Owner(Regular, identity, Some(e.size), Some(e.digest)), q.tries, NoFault);
    if r != Removed {
      return p, false;
    }
    p, ok := p.(oldLinked := false), true;
    if back {
      var seen := ReadAt(d, Public(q.text), MAX_CONTROL_BYTES);
      ok := Exact(seen, identity, e.size, e.digest);
    }
  }

  method DropStagingAt(d: Directory, linked: bool, tag: Tag, o: Owner, q: Request) returns (still: bool)
    modifies d
    ensures DropStep(d.state, still) == DropStaging(d.w, DropStep(old(d.state), linked), tag, o, q)
  {
    still := linked;
    if linked {
      var r := d.RemoveOwnedAt(Private(tag), o, q.tries, NoFault);
      still := r != Removed;
    }
  }

  method CleanupAt(d: Directory, p0: Progress, q: Request) returns (p: Progress)
    modifies d
    ensures WriteStep(d.state, Failed(p)) == Cleanup(d.w, old(d.state), p0, q)
  {
    hide RemoveOwned, RestoreOld, DropStaging;
    if p0.published {
      var _ := d.RemoveOwnedAt(Public(q.text), OwnStaged(p0, q), q.tries, NoFault);
    }
    var restored;
    p, restored := RestoreOldAt(d, p0, q);
    var o := if p.verified then OwnStaged(p, q) else Owner(Regular, p.staged, None, None);
    var stageLinked := DropStagingAt(d, p.stageLinked, p.stage, o, q);
    var newLinked := DropStagingAt(d, p.newLinked, p.new_, o, q);
    stageLinked := DropStagingAt(d, stageLinked, p.stage, OwnStaged(p, q), q);
    newLinked := DropStagingAt(d, newLinked, p.new_, OwnStaged(p, q), q);
  }

  /** _write_bytes_at, step by step on the shared directory: exactly what `WriteBytes` says, hence
      under every schedule what `NoLostUpdate` promises. */
  method WriteBytesAt(d: Directory, q: Request) returns (out: Outcome)
    modifies d
    ensures WriteStep(d.state, out) == WriteBytes(d.w, old(d.state), q)
  {
    hide Precheck, Stage, ClaimOld, Expose, Cleanup;
    var go := PrecheckAt(d, q);
    if !go {
      return Refused;
    }
    var p, ok := StageAt(d, q);
    if ok && q.expected.Some? {
      p, ok := ClaimOldAt(d, p, q);
    }
    if ok {
      p, ok := ExposeAt(d, p, q);
    }
    if ok {
      return Published(p);
    }
    p := CleanupAt(d, p, q);
    return Failed(p);
  }
}
