/** Whole transactions with no other writer: what every write comes to, and that a list of writes
    ends with all of them or with none. */
module AllOrNothing {
  import opened Common
  import opened Filesystem
  import opened OwnedRemoval
  import opened Publication
  import opened Transaction

  // ---------------------------------------------------------------- the phases succeed

  /** A file just made has the one link it was made with. */
  lemma NewFileIsAlone(s: State, tag: Tag)
    requires Valid(s) && tag !in s.private
    ensures NLink(Bind(s, Private(tag), s.next), s.next) == 1
  {
    NLinkPositive(s, s.next);
    BindCounts(s, Private(tag), s.next, s.next);
  }

  /** The staged file, whole. */
  predicate Whole(s: State, p: Progress, q: Request) {
    Is(s, p.staged, |q.bytes|, Sha256(q.bytes))
  }

  lemma OneLeft(s: State, t: State, name: Name, i: Inode)
    requires Has(s, name) && At(s, name) == i && NLink(s, i) == 2
    requires Transaction.SameNames(Unbind(s, name), t)
    ensures NLink(t, i) == 1
  {
    UnbindCounts(s, name, i);
    SameLinks(Unbind(s, name), t);
  }

  lemma TwoNow(s: State, source: Name, target: Name)
    requires Has(s, source) && !Has(s, target) && NLink(s, At(s, source)) == 1
    ensures NLink(Link(s, source, target), At(s, source)) == 2
  {
    BindCounts(s, target, At(s, source), At(s, source));
    SameLinks(Link(s, source, target), Bind(s, target, At(s, source)));
  }

  lemma StageClaimSucceeds(w: Writers, s: State, p: Progress, q: Request)
    requires Calm(w, s) && q.tries > 0 && IsControl(p) && Whole(s, p, q)
    requires p.stage in s.private && p.new_ in s.private && s.private[p.stage] == s.private[p.new_] == p.staged
    requires NLink(s, p.staged) == 2
    ensures StageClaim(w, s, p, q).ok
  {
    hide RemoveOwned, Read, Calm, NLink;
    QuietRemoval(w, s, Private(p.stage), OwnStaged(p, q), q.tries);
    var removal := RemoveOwned(w, s, Private(p.stage), OwnStaged(p, q), q.tries, NoFault);
    OneLeft(s, removal.s, Private(p.stage), p.staged);
    QuietRead(w, removal.s, Private(p.new_), |q.bytes|);
  }

  /** The random names drawn for staging are new. */
  lemma NamesAreNew(s: State)
    requires FreshTokens(s)
    ensures var p := Names(s); p.stage !in s.private && p.new_ !in s.private && p.old_ !in s.private && IsControl(p)
  {
    assert forall k: nat, r: Role :: s.drawn <= k ==> Tag(r, s.tokens(k)) !in s.private;
    var a, b, c := s.tokens(s.drawn), s.tokens(s.drawn + 1), s.tokens(s.drawn + 2);
    assert Tag(ControlStage, a) !in s.private && Tag(ControlNew, b) !in s.private && Tag(ControlOld, c) !in s.private;
  }

  lemma CalmFacts(w: Writers, s: State)
    requires Calm(w, s)
    ensures Valid(s) && FreshTokens(s) && Lawful(w)
  {}

  /** With no other writer staging always succeeds. */
  lemma StageSucceeds(w: Writers, s: State, q: Request)
    requires Calm(w, s) && q.tries > 0
    ensures Stage(w, s, q).ok
    ensures !Stage(w, s, q).p.stageLinked && Stage(w, s, q).p.newLinked && Stage(w, s, q).p.verified
    ensures Stage(w, s, q).p.old_ == Names(s).old_ && !Stage(w, s, q).p.oldLinked && !Stage(w, s, q).p.published
  {
    hide Calm, StageClaim, NLink, FreshTokens, Valid;
    QuietDraw(w, s);
    var s0 := s.(drawn := s.drawn + 3);
    QuietStep(w, s0);
    var s1 := w(s0);
    CalmFacts(w, s);
    NamesAreNew(s);
    var p := Names(s).(staged := s1.next);
    QuietCreate(w, s1, p.stage, s.drawn, q.bytes, q.mtime);
    var s2 := Create(s1, p.stage, q.bytes, q.mtime);
    QuietStep(w, s2);
    var s3 := w(s2);
    QuietHide(w, s3, Private(p.stage), p.new_, s.drawn + 1);
    var s4 := Link(s3, Private(p.stage), Private(p.new_));
    StagedTwice(w, s1, s3, p);
    var p1 := p.(stageLinked := true, newLinked := true);
    StageClaimSucceeds(w, s4, p1, q);
    QuietStageClaim(w, s4, p1, q);
  }

  lemma StagedTwice(w: Writers, s1: State, s3: State, p: Progress)
    requires Calm(w, s1) && p.stage !in s1.private && p.staged == s1.next && p.new_ !in s1.private && IsControl(p)
    requires s3.public == s1.public && s3.private == s1.private[p.stage := s1.next]
    ensures NLink(Link(s3, Private(p.stage), Private(p.new_)), p.staged) == 2
  {
    hide Calm, NLink;
    CalmFacts(w, s1);
    NewFileIsAlone(s1, p.stage);
    SameLinks(s3, Bind(s1, Private(p.stage), s1.next));
    TwoNow(s3, Private(p.stage), Private(p.new_));
  }

  /** The predecessor stands at the public name exactly as it was read. */
  ghost predicate Awaits(s: State, q: Request)
    requires q.expected.Some?
  {
    var e := q.expected.value;
    && q.text in s.public && s.public[q.text] == e.inode && Is(s, e.inode, e.size, e.digest)
    && s.files[e.inode].mtime == e.mtime && e.size <= MAX_CONTROL_BYTES && NLink(s, e.inode) == 1
  }

  lemma ClaimSucceeds(w: Writers, s: State, p: Progress, q: Request, j: nat)
    requires Calm(w, s) && q.tries > 0 && q.expected.Some? && Awaits(s, q)
    requires p.old_ !in s.private && p.old_.role == ControlOld && j < s.drawn && p.old_.token == s.tokens(j)
    ensures ClaimOld(w, s, p, q).ok
  {
    hide Calm, NLink, VacateOld;
    QuietStep(w, s);
    var s1 := w(s);
    SameLinks(s, s1);
    QuietHide(w, s1, Public(q.text), p.old_, j);
    TwoNow(s1, Public(q.text), Private(p.old_));
    VacateSucceeds(w, Link(s1, Public(q.text), Private(p.old_)), p.(oldLinked := true, aside := Some(s1.public[q.text])), q);
  }

  lemma VacateSucceeds(w: Writers, s: State, p: Progress, q: Request)
    requires Calm(w, s) && q.tries > 0 && q.expected.Some?
    requires q.text in s.public && p.old_ in s.private && s.public[q.text] == s.private[p.old_] == q.expected.value.inode
    requires var e := q.expected.value;
             Is(s, e.inode, e.size, e.digest) && s.files[e.inode].mtime == e.mtime && e.size <= MAX_CONTROL_BYTES
    requires NLink(s, q.expected.value.inode) == 2
    ensures VacateOld(w, s, p, q).ok
  {
    hide RemoveOwned, Read, RestoreOld, Calm, NLink;
    var o := OwnExpected(q.expected.value);
    QuietRemoval(w, s, Public(q.text), o, q.tries);
    var vacated := RemoveOwned(w, s, Public(q.text), o, q.tries, NoFault);
    OneLeft(s, vacated.s, Public(q.text), q.expected.value.inode);
    QuietRead(w, vacated.s, Private(p.old_), MAX_CONTROL_BYTES);
  }

  lemma ExposeSucceeds(w: Writers, s: State, p: Progress, q: Request)
    requires Calm(w, s) && q.tries > 0 && IsControl(p) && Whole(s, p, q)
    requires q.text !in s.public && p.new_ in s.private && s.private[p.new_] == p.staged && NLink(s, p.staged) == 1
    ensures Expose(w, s, p, q).ok
  {
    hide Calm, NLink, ConfirmNew;
    QuietStep(w, s);
    var s1 := w(s);
    SameLinks(s, s1);
    QuietLink(w, s1, Private(p.new_), q.text);
    TwoNow(s1, Private(p.new_), Public(q.text));
    ConfirmSucceeds(w, Link(s1, Private(p.new_), Public(q.text)), p.(published := true), q);
  }

  lemma ConfirmSucceeds(w: Writers, s: State, p: Progress, q: Request)
    requires Calm(w, s) && q.tries > 0 && IsControl(p) && Whole(s, p, q)
    requires q.text in s.public && p.new_ in s.private && s.public[q.text] == s.private[p.new_] == p.staged
    requires NLink(s, p.staged) == 2
    ensures ConfirmNew(w, s, p, q).ok
  {
    hide Calm, NLink, RemoveOwned, Read;
    QuietRemoval(w, s, Private(p.new_), OwnStaged(p, q), q.tries);
    var removal := RemoveOwned(w, s, Private(p.new_), OwnStaged(p, q), q.tries, NoFault);
    OneLeft(s, removal.s, Private(p.new_), p.staged);
    QuietRead(w, removal.s, Public(q.text), |q.bytes|);
    var first := Read(w, removal.s, Public(q.text), |q.bytes|);
    SameLinks(removal.s, first.s);
    QuietRead(w, first.s, Public(q.text), |q.bytes|);
  }

  // ---------------------------------------------------------------- what a write comes to

  lemma PrecheckMeans(w: Writers, s: State, q: Request)
    requires Calm(w, s)
    ensures
      var (t, go) := Precheck(w, s, q);
      go && q.expected.Some? ==> Awaits(t, q)
  {
    hide Read, Calm, NLink;
    QuietStep(w, s);
    QuietRead(w, w(s), Public(q.text), MAX_CONTROL_BYTES);
    SameLinks(w(s), Read(w, w(s), Public(q.text), MAX_CONTROL_BYTES).s);
  }

  /** A creation whose name is taken is staged and then withdrawn without trace. */
  lemma TakenName(w: Writers, s: State, q: Request)
    requires Calm(w, s) && q.tries > 0 && q.expected.None? && q.text in s.public
    ensures
      var staged := Stage(w, s, q);
      var step := Finish(w, Expose(w, staged.s, staged.p, q), q);
      && step.out.Failed? && Calm(w, step.s) && Transaction.SameNames(s, step.s) && FilesKept(s, step.s)
  {
    hide Stage, Calm, RemoveOwned, NLink;
    StageSucceeds(w, s, q);
    QuietStage(w, s, q);
    var staged := Stage(w, s, q);
    QuietStep(w, staged.s);
    var s1 := w(staged.s);
    assert Expose(w, staged.s, staged.p, q) == Phase(s1, staged.p, false);
    NewIsBelow(w, s);
    DropNewOnly(w, s1, staged.p, q);
    assert s.private[staged.p.new_ := s.next] - {staged.p.new_} == s.private;
  }

  lemma NewIsBelow(w: Writers, s: State)
    requires Calm(w, s)
    ensures s.next !in s.files
  {}

  lemma DropNewOnly(w: Writers, s: State, p: Progress, q: Request)
    requires Calm(w, s) && q.tries > 0 && IsControl(p) && Whole(s, p, q)
    requires !p.published && !p.oldLinked && !p.stageLinked && p.newLinked && p.verified
    requires p.new_ in s.private && s.private[p.new_] == p.staged
    ensures
      var step := Cleanup(w, s, p, q);
      && step.out.Failed? && Calm(w, step.s) && step.s.public == s.public && step.s.private == s.private - {p.new_}
      && step.s.files == s.files && step.s.next == s.next
  {
    hide RemoveOwned, Calm;
    QuietRemoval(w, s, Private(p.new_), OwnStaged(p, q), q.tries);
  }

  /** With no other writer a write comes to exactly one of three things: it is refused before
      anything is staged, it is a creation whose name is taken, or it publishes. In the first two
      cases every name is as before. */
  lemma QuietWrite(w: Writers, s: State, q: Request)
    requires Calm(w, s) && q.tries > 0
    ensures
      var go := Precheck(w, s, q).1;
      var step := WriteBytes(w, s, q);
      && Calm(w, step.s)
      && (step.out.Refused? <==> !go)
      && (step.out.Failed? <==> go && q.expected.None? && q.text in s.public)
      && (!step.out.Published? ==> Transaction.SameNames(s, step.s) && FilesKept(s, step.s))
  {
    hide Stage, ClaimOld, Expose, Finish, Calm, NLink, Precheck, FilesKept, Awaits;
    QuietPrecheck(w, s, q);
    var (s1, go) := Precheck(w, s, q);
    if go {
      StageSucceeds(w, s1, q);
      if q.expected.None? && q.text in s.public {
        TakenName(w, s1, q);
        assert FilesKept(s, WriteBytes(w, s, q).s) by { KeptFrom(s, s1, WriteBytes(w, s, q).s); }
      } else {
        WritePublishes(w, s, q);
        QuietWriteTook(w, s, q);
      }
    } else {
      assert FilesKept(s, s1) by { KeptSame(s, s1); }
    }
  }

  lemma KeptFrom(s: State, s1: State, t: State)
    requires s1.files == s.files && s1.next == s.next && FilesKept(s1, t)
    ensures FilesKept(s, t)
  {}

  lemma KeptSame(s: State, t: State)
    requires t.files == s.files && t.next == s.next
    ensures FilesKept(s, t)
  {}

  lemma WritePublishes(w: Writers, s: State, q: Request)
    requires Calm(w, s) && q.tries > 0 && Precheck(w, s, q).1 && (q.expected.None? ==> q.text !in s.public)
    ensures WriteBytes(w, s, q).out.Published?
  {
    hide Stage, ClaimOld, Expose, Calm, NLink, Precheck, Cleanup, FreshTokens, Valid;
    QuietPrecheck(w, s, q);
    PrecheckMeans(w, s, q);
    var (s1, _) := Precheck(w, s, q);
    StageSucceeds(w, s1, q);
    QuietStage(w, s1, q);
    var staged := Stage(w, s1, q);
    CalmFacts(w, s1);
    NamesAreNew(s1);
    NewFileIsAlone(s1, staged.p.new_);
    SameLinks(staged.s, Bind(s1, Private(staged.p.new_), s1.next));
    if q.expected.None? {
      ExposeSucceeds(w, staged.s, staged.p, q);
    } else {
      ReplacementSucceeds(w, s1, staged, q);
    }
  }

  lemma ReplacementSucceeds(w: Writers, s: State, staged: Phase, q: Request)
    requires Calm(w, s) && Calm(w, staged.s) && q.tries > 0 && q.expected.Some? && Awaits(s, q)
    requires IsControl(staged.p) && Whole(staged.s, staged.p, q) && NLink(staged.s, staged.p.staged) == 1
    requires staged.p.staged == s.next && staged.p.new_ !in s.private && staged.p.old_ !in s.private
    requires staged.s.public == s.public && staged.s.private == s.private[staged.p.new_ := s.next]
    requires staged.s.files == s.files[s.next := staged.s.files[s.next]]
    requires exists j: nat :: j < staged.s.drawn && staged.p.old_.token == staged.s.tokens(j)
    ensures
      var claimed := ClaimOld(w, staged.s, staged.p, q);
      claimed.ok && Expose(w, claimed.s, claimed.p, q).ok
  {
    hide ClaimOld, Expose, Calm, NLink;
    var j: nat :| j < staged.s.drawn && staged.p.old_.token == staged.s.tokens(j);
    var e, p := q.expected.value.inode, staged.p;
    NewIsBelow(w, s);
    BindCounts(s, Private(p.new_), s.next, e);
    SameLinks(staged.s, Bind(s, Private(p.new_), s.next));
    ClaimSucceeds(w, staged.s, p, q, j);
    QuietClaim(w, staged.s, p, q, j);
    var claimed := ClaimOld(w, staged.s, p, q);
    StillAlone(staged.s, claimed.s, q.text, p, e);
    ExposeSucceeds(w, claimed.s, claimed.p, q);
  }

  /** Moving the predecessor aside leaves the staged file's link count alone. */
  lemma StillAlone(s: State, t: State, text: string, p: Progress, e: Inode)
    requires text in s.public && s.public[text] == e && p.old_ !in s.private && p.staged != e
    requires t.public == s.public - {text} && t.private == s.private[p.old_ := e]
    ensures NLink(t, p.staged) == NLink(s, p.staged)
  {
    UnbindCounts(s, Public(text), p.staged);
    BindCounts(Unbind(s, Public(text)), Private(p.old_), e, p.staged);
    SameLinks(t, Bind(Unbind(s, Public(text)), Private(p.old_), e));
  }

  // ---------------------------------------------------------------- whole transactions

  /** A transaction's writes, one after the other, up to the first that does not publish. */
  datatype Batch = Batch(states: seq<State>, pubs: seq<Pub>, end: State, ok: bool)

  function PublishAll(w: Writers, s: State, qs: seq<Request>): (b: Batch)
    ensures |b.states| == |b.pubs| + 1 && b.states[0] == s
    decreases |qs|
  {
    if qs == [] then Batch([s], [], s, true) else
      var step := WriteBytes(w, s, qs[0]);
      if !step.out.Published? then Batch([s], [], step.s, false) else
        var rest := PublishAll(w, step.s, qs[1..]);
        Batch([s] + rest.states, [Pub(step.out.p, qs[0])] + rest.pubs, rest.end, rest.ok)
  }

  /** The writes, and then the end of the transaction: finalized if all published, rolled back
      otherwise. */
  function Transact(w: Writers, s: State, qs: seq<Request>, faults: Faults): FinalStep {
    var b := PublishAll(w, s, qs);
    if b.ok then FinalizeAll(w, b.end, b.pubs, faults) else FinalStep(RollbackAll(w, b.end, b.pubs), false)
  }

  /** The public names once every new generation is in place. */
  function Overlay(public: PublicMap, pubs: seq<Pub>): PublicMap
    decreases |pubs|
  {
    if pubs == [] then public else Overlay(public[pubs[0].q.text := pubs[0].p.staged], pubs[1..])
  }

  function Expecting(qs: seq<Request>): nat {
    if qs == [] then 0 else (if qs[0].expected.Some? then 1 else 0) + Expecting(qs[1..])
  }

  /** The publications so far form a run, from `s` to the end. */
  ghost predicate RunsTo(w: Writers, s: State, b: Batch, qs: seq<Request>)
    requires |b.states| == |b.pubs| + 1
  {
    && Run(b.states, b.pubs) && Stands(b.states[|b.pubs|], b.end) && Calm(w, b.end)
    && Replacing(b.pubs) <= Expecting(qs)
    && b.end.public == Overlay(s.public, b.pubs)
    && (b.ok ==> |b.pubs| == |qs|)
  }

  lemma {:induction false} PublishAllRuns(w: Writers, s: State, qs: seq<Request>)
    requires Calm(w, s) && forall k :: 0 <= k < |qs| ==> qs[k].tries > 0
    ensures RunsTo(w, s, PublishAll(w, s, qs), qs)
    decreases |qs|
  {
    hide WriteBytes, Calm, Took;
    if qs != [] {
      var step := WriteBytes(w, s, qs[0]);
      QuietWrite(w, s, qs[0]);
      if step.out.Published? {
        QuietWriteTook(w, s, qs[0]);
        PublishAllRuns(w, step.s, qs[1..]);
        PublishedOnce(w, s, qs);
      }
    }
  }

  lemma PublishedOnce(w: Writers, s: State, qs: seq<Request>)
    requires qs != [] && WriteBytes(w, s, qs[0]).out.Published?
    requires var step := WriteBytes(w, s, qs[0]); Took(s, step.s, Pub(step.out.p, qs[0])) && FilesKept(s, step.s)
    requires var s1 := WriteBytes(w, s, qs[0]).s; RunsTo(w, s1, PublishAll(w, s1, qs[1..]), qs[1..])
    ensures RunsTo(w, s, PublishAll(w, s, qs), qs)
  {
    hide WriteBytes, FilesKept, Is, NLink, Calm;
    var step := WriteBytes(w, s, qs[0]);
    var rest := PublishAll(w, step.s, qs[1..]);
    var b := PublishAll(w, s, qs);
    assert b.pubs[1..] == rest.pubs;
    forall k | 0 <= k < |b.pubs|
      ensures Leg(b.states, b.pubs, k)
    {
      if k > 0 {
        assert Leg(rest.states, rest.pubs, k - 1);
      }
    }
  }

  /** All or nothing, from the first write to the end of the transaction: with no other writer, any
      list of writes of which at most one replaces a predecessor, whichever of them is refused and
      whatever faults strike the finalization, ends with every one of them published and every new
      generation public, or with exactly the names the transaction found. */
  lemma TransactionIsAtomic(w: Writers, s: State, qs: seq<Request>, faults: Faults)
    requires Calm(w, s) && (forall k :: 0 <= k < |qs| ==> qs[k].tries > 0) && Expecting(qs) <= 1
    ensures
      var b := PublishAll(w, s, qs);
      var end := Transact(w, s, qs, faults);
      && (end.committed ==> b.ok && |b.pubs| == |qs| && end.s.public == Overlay(s.public, b.pubs))
      && (!end.committed ==> Transaction.SameNames(s, end.s))
      && Transaction.SameNames(s, RollbackAll(w, b.end, b.pubs))
  {
    hide PublishAll, FinalizeAll, RollbackAll, Calm, Took;
    PublishAllRuns(w, s, qs);
    var b := PublishAll(w, s, qs);
    FinalizeIsAtomic(w, b.states, b.pubs, b.end, faults);
    RollbackRestores(w, b.states, b.pubs, b.end);
  }
}
