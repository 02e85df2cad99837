/** `_MutationTransaction` (src/sddgov/evidence.py): a list of completed publications with a
    deferred end. `Finalize` re-verifies every publication and then drops the predecessors it
    kept; `Rollback` withdraws the publications last to first. */
module Transaction {
  import opened Common
  import opened Filesystem
  import opened OwnedRemoval
  import opened Publication

  /** One completed publication: the flags and the request its closures share. */
  datatype Pub = Pub(p: Progress, q: Request)
  datatype OpStep = OpStep(s: State, pub: Pub, ok: bool)

  // ---------------------------------------------------------------- the three operations of a publication

  /** rollback_publication */
  function Undo(w: Writers, s: State, pub: Pub): OpStep {
    var withdrawn := RemoveOwned(w, s, Public(pub.q.text), OwnStaged(pub.p, pub.q), pub.q.tries, NoFault);
    if withdrawn.r.Removed? || withdrawn.r.Absent? || withdrawn.r.Restored? then
      if pub.q.expected.None? then OpStep(withdrawn.s, pub, true) else
        var back := RestoreOld(w, withdrawn.s, pub.p, pub.q);
        OpStep(back.s, pub.(p := back.p), back.ok)
    else OpStep(withdrawn.s, pub, false)
  }

  /** verify_publication, which an error may strike */
  function Check(w: Writers, s: State, pub: Pub, struck: bool): OpStep {
    if struck then OpStep(w(s), pub, false) else
    var read := Read(w, s, Public(pub.q.text), MAX_CONTROL_BYTES);
    OpStep(read.s, pub, Exact(read.seen, pub.p.staged, |pub.q.bytes|, Sha256(pub.q.bytes)))
  }

  /** finalize_predecessor: an error counts only while the private claim is still there. */
  function DropPredecessor(w: Writers, s: State, pub: Pub, fault: Fault): OpStep {
    if pub.q.expected.None? || !pub.p.oldLinked || pub.p.oldIdentity.None? then OpStep(s, pub, true) else
      var e := pub.q.expected.value;
      var o := Owner(Regular, pub.p.oldIdentity.value, Some(e.size), Some(e.digest));
      var removal := RemoveOwned(w, s, Private(pub.p.old_), o, pub.q.tries, fault);
      var dropped := pub.(p := pub.p.(oldLinked := false));
      if removal.r.Removed? then OpStep(removal.s, dropped, true)
      else if removal.r.Absent? || removal.r.Restored? then OpStep(removal.s, pub, false)
      else
        var s1 := w(removal.s);
        if pub.p.old_ in s1.private then OpStep(s1, pub, false) else OpStep(s1, dropped, true)
  }

  // ---------------------------------------------------------------- the transaction

  /** Withdraw the publications, last first. Errors do not stop it. */
  function RollbackAll(w: Writers, s: State, pubs: seq<Pub>): State
    decreases |pubs|
  {
    if pubs == [] then s else
      RollbackAll(w, Undo(w, s, pubs[|pubs| - 1]).s, pubs[..|pubs| - 1])
  }

  /** Which verifications an error strikes, and which fault strikes each drop. */
  datatype Faults = Faults(check: nat -> bool, drop: nat -> Fault)

  datatype CheckAllStep = CheckAllStep(s: State, ok: bool)

  /** Verify every publication, up to the first failure or error. */
  function CheckAll(w: Writers, s: State, pubs: seq<Pub>, struck: nat -> bool, k: nat): CheckAllStep
    decreases |pubs|
  {
    if pubs == [] then CheckAllStep(s, true) else
      var step := Check(w, s, pubs[0], struck(k));
      if step.ok then CheckAll(w, step.s, pubs[1..], struck, k + 1) else CheckAllStep(step.s, false)
  }

  datatype DropAllStep = DropAllStep(s: State, pubs: seq<Pub>, ok: bool)

  /** Drop every kept predecessor; `faults(k)` strikes the k-th. Errors do not stop it. */
  function DropAll(w: Writers, s: State, pubs: seq<Pub>, faults: nat -> Fault, k: nat): DropAllStep
    ensures |DropAll(w, s, pubs, faults, k).pubs| == |pubs|
    decreases |pubs|
  {
    if pubs == [] then DropAllStep(s, [], true) else
      var step := DropPredecessor(w, s, pubs[0], faults(k));
      var rest := DropAll(w, step.s, pubs[1..], faults, k + 1);
      DropAllStep(rest.s, [step.pub] + rest.pubs, step.ok && rest.ok)
  }

  datatype FinalStep = FinalStep(s: State, committed: bool)

  function FinalizeAll(w: Writers, s: State, pubs: seq<Pub>, faults: Faults): FinalStep {
    var checked := CheckAll(w, s, pubs, faults.check, 0);
    if !checked.ok then FinalStep(RollbackAll(w, checked.s, pubs), false) else
      var dropped := DropAll(w, checked.s, pubs, faults.drop, 0);
      if dropped.ok then FinalStep(dropped.s, true)
      else FinalStep(RollbackAll(w, dropped.s, dropped.pubs), false)
  }

  class MutationTransaction {
    var pubs: seq<Pub>
    var finished: bool
    const dir: Directory

    constructor (dir: Directory)
      ensures pubs == [] && !finished && this.dir == dir
    {
      pubs, finished, this.dir := [], false, dir;
    }

    method Add(pub: Pub) returns (ok: bool)
      modifies this`pubs
      ensures ok == !finished
      ensures pubs == if finished then old(pubs) else old(pubs) + [pub]
    {
      ok := !finished;
      if ok {
        pubs := pubs + [pub];
      }
    }

    method Rollback()
      modifies this, dir
      ensures finished
      ensures old(finished) ==> dir.state == old(dir.state)
      ensures !old(finished) ==> dir.state == RollbackAll(dir.w, old(dir.state), old(pubs)) && pubs == []
    {
      if finished {
        return;
      }
      finished := true;
      var k := |pubs|;
      assert pubs[..k] == pubs;
      while k > 0
        invariant 0 <= k <= |pubs| && finished && pubs == old(pubs)
        invariant RollbackAll(dir.w, old(dir.state), pubs) == RollbackAll(dir.w, dir.state, pubs[..k])
      {
        assert pubs[..k][..k - 1] == pubs[..k - 1];
        dir.state := Undo(dir.w, dir.state, pubs[k - 1]).s;
        k := k - 1;
      }
      pubs := [];
    }

    method Finalize(faults: Faults) returns (committed: bool)
      modifies this, dir
      ensures finished
      ensures old(finished) ==> dir.state == old(dir.state)
      ensures !old(finished) ==> FinalStep(dir.state, committed) == FinalizeAll(dir.w, old(dir.state), old(pubs), faults)
    {
      hide Check, RollbackAll, DropAll;
      if finished {
        return true;
      }
      var k := 0;
      while k < |pubs|
        invariant 0 <= k <= |pubs| && !finished && pubs == old(pubs)
        invariant CheckAll(dir.w, old(dir.state), pubs, faults.check, 0) == CheckAll(dir.w, dir.state, pubs[k..], faults.check, k)
      {
        var step := Check(dir.w, dir.state, pubs[k], faults.check(k));
        dir.state := step.s;
        if !step.ok {
          Rollback();
          return false;
        }
        k := k + 1;
      }
      committed := DropPredecessors(faults.drop);
      if !committed {
        Rollback();
        return false;
      }
      finished, pubs := true, [];
    }

    method DropPredecessors(faults: nat -> Fault) returns (ok: bool)
      requires !finished
      modifies this`pubs, dir
      ensures DropAllStep(dir.state, pubs, ok) == DropAll(dir.w, old(dir.state), old(pubs), faults, 0)
    {
      hide DropPredecessor;
      ok := true;
      var k := 0;
      while k < |pubs|
        invariant 0 <= k <= |pubs| == |old(pubs)|
        invariant pubs[k..] == old(pubs)[k..]
        invariant
          var all := DropAll(dir.w, old(dir.state), old(pubs), faults, 0);
          var rest := DropAll(dir.w, dir.state, pubs[k..], faults, k);
          all == DropAllStep(rest.s, pubs[..k] + rest.pubs, ok && rest.ok)
      {
        var step := DropPredecessor(dir.w, dir.state, pubs[k], faults(k));
        ghost var rest := DropAll(dir.w, step.s, pubs[k + 1..], faults, k + 1);
        assert pubs[k..][1..] == pubs[k + 1..];
        assert pubs[..k] + ([step.pub] + rest.pubs) == pubs[k := step.pub][..k + 1] + rest.pubs;
        dir.state := step.s;
        pubs, ok, k := pubs[k := step.pub], ok && step.ok, k + 1;
      }
    }
  }

  // ---------------------------------------------------------------- with no other writer

  ghost predicate Calm(w: Writers, s: State) {
    Quiet(w) && Lawful(w) && Valid(s) && FreshTokens(s)
  }

  /** There are such directories and such schedules. */
  lemma EmptyDirectoryIsCalm() returns (w: Writers, s: State)
    ensures Calm(w, s)
  {
    var none := (k: nat) => [];
    w := (s: State) => s.(calls := s.calls + 1);
    s := State(map[], map[], map[], map[], 0, 0, (k: nat) => k, 0, multiset{}, multiset{}, multiset{}, multiset{});
    ScriptIsLawful(none, w);
  }

  predicate SameNames(a: State, b: State) {
    a.public == b.public && a.private == b.private
  }

  lemma QuietRemoval(w: Writers, s: State, name: Name, o: Owner, tries: nat)
    requires Calm(w, s) && !IsPending(name) && tries > 0
    ensures
      var step := RemoveOwned(w, s, name, o, tries, NoFault);
      && Calm(w, step.s) && step.s.files == s.files && step.s.next == s.next
      && step.s.tokens == s.tokens && s.drawn <= step.s.drawn
      && (if !Has(s, name) then step.r == Absent && SameNames(s, step.s)
          else if Owns(o, At(s, name), s.files[At(s, name)])
          then step.r == Removed && SameNames(Unbind(s, name), step.s)
          else step.r == Restored && SameNames(s, step.s))
  {
    hide RemoveOwned, Balances;
    RemoveOwnedQuiet(w, s, name, o, tries);
    RemoveOwnedConserves(w, s, name, o, tries, NoFault);
  }

  predicate Readable(s: State, name: Name, max: nat) {
    && Has(s, name) && At(s, name) in s.files
    && s.files[At(s, name)].kind == Regular && |s.files[At(s, name)].bytes| <= max
    && NLink(s, At(s, name)) == 1
  }

  lemma QuietRead(w: Writers, s: State, name: Name, max: nat)
    requires Calm(w, s)
    ensures
      var step := Read(w, s, name, max);
      && Calm(w, step.s) && SameNames(s, step.s) && step.s.files == s.files && step.s.next == s.next
      && step.s.tokens == s.tokens && s.drawn <= step.s.drawn
      && step.seen == (if Readable(s, name, max) then Some(Seen(At(s, name), s.files[At(s, name)])) else None)
  {
    hide NLink, Balances, Undisturbed, Read;
    QuietSteps(w, s);
    ReadWhat(w, s, name, max);
  }

  lemma QuietSteps(w: Writers, s: State)
    requires Calm(w, s)
    ensures Calm(w, s.(calls := s.calls + 1)) && Calm(w, s.(calls := s.calls + 2)) && Calm(w, s.(calls := s.calls + 3))
  {
    SameLinks(s, s.(calls := s.calls + 1));
    SameLinks(s, s.(calls := s.calls + 2));
    SameLinks(s, s.(calls := s.calls + 3));
  }

  /** A quiet reading, call by call. */
  lemma ReadWhat(w: Writers, s: State, name: Name, max: nat)
    requires Quiet(w)
    ensures
      var step := Read(w, s, name, max);
      && (step.s == s.(calls := s.calls + 1) || step.s == s.(calls := s.calls + 2) || step.s == s.(calls := s.calls + 3))
      && step.seen == (if Readable(s, name, max) then Some(Seen(At(s, name), s.files[At(s, name)])) else None)
  {
    hide NLink;
    SameLinks(s, w(s));
    SameLinks(s, w(w(s)));
    SameLinks(s, w(w(w(s))));
  }

  /** The file at inode `i` is the one with this size and digest. */
  predicate Is(s: State, i: Inode, size: nat, digest: Digest) {
    && i in s.files && s.files[i].kind == Regular
    && |s.files[i].bytes| == size && Sha256(s.files[i].bytes) == digest
  }

  // ---------------------------------------------------------------- one publication and its undoing

  /** A completed publication took the directory from `s` to `t`: its generation is public, and a
      predecessor it replaced is held under the private name and nowhere else. */
  ghost predicate Took(s: State, t: State, pub: Pub) {
    && IsControl(pub.p) && pub.q.tries > 0
    && t.public == s.public[pub.q.text := pub.p.staged]
    && Is(t, pub.p.staged, |pub.q.bytes|, Sha256(pub.q.bytes)) && NLink(t, pub.p.staged) == 1
    && (match pub.q.expected
        case None => pub.q.text !in s.public && t.private == s.private
        case Some(e) =>
          && pub.q.text in s.public && s.public[pub.q.text] == e.inode
          && pub.p.oldLinked && pub.p.oldIdentity == Some(e.inode)
          && pub.p.old_ !in s.private && t.private == s.private[pub.p.old_ := e.inode]
          && Is(t, e.inode, e.size, e.digest) && e.size <= MAX_CONTROL_BYTES && NLink(t, e.inode) == 1)
  }

  /** The files are those of `t`, and maybe more. */
  ghost predicate Stands(t: State, c: State) {
    SameNames(t, c) && FilesKept(t, c)
  }

  lemma QuietReturn(w: Writers, c: State, pub: Pub)
    requires Calm(w, c) && IsControl(pub.p) && pub.q.tries > 0 && pub.q.expected.Some?
    requires pub.p.oldLinked && pub.p.oldIdentity == Some(pub.q.expected.value.inode)
    requires pub.q.text !in c.public && pub.p.old_ in c.private && c.private[pub.p.old_] == pub.q.expected.value.inode
    requires var e := pub.q.expected.value;
             Is(c, e.inode, e.size, e.digest) && e.size <= MAX_CONTROL_BYTES && NLink(c, e.inode) == 1
    ensures
      var back := RestoreOld(w, c, pub.p, pub.q);
      && back.ok && Calm(w, back.s) && back.s.files == c.files && back.s.next == c.next
      && back.s.public == c.public[pub.q.text := pub.q.expected.value.inode]
      && back.s.private == c.private - {pub.p.old_}
  {
    hide Read, RemoveOwned, Balances, NLink, FreshTokens;
    var e := pub.q.expected.value;
    QuietRead(w, c, Private(pub.p.old_), MAX_CONTROL_BYTES);
    var r := Read(w, c, Private(pub.p.old_), MAX_CONTROL_BYTES).s;
    var s1 := w(r);
    QuietStep(w, r);
    var s2 := Link(s1, Private(pub.p.old_), Public(pub.q.text));
    QuietLink(w, s1, Private(pub.p.old_), pub.q.text);
    var o := Owner(Regular, e.inode, Some(e.size), Some(e.digest));
    QuietRemoval(w, s2, Private(pub.p.old_), o, pub.q.tries);
    var s3 := RemoveOwned(w, s2, Private(pub.p.old_), o, pub.q.tries, NoFault).s;
    MoveCounts(c, s3, pub.q.text, pub.p.old_, e.inode);
    QuietRead(w, s3, Public(pub.q.text), MAX_CONTROL_BYTES);
  }

  lemma QuietStep(w: Writers, s: State)
    requires Calm(w, s)
    ensures Calm(w, w(s)) && SameNames(s, w(s)) && w(s).files == s.files && w(s).next == s.next
    ensures w(s).tokens == s.tokens && w(s).drawn == s.drawn
  {}

  lemma QuietLink(w: Writers, s: State, source: Name, text: string)
    requires Calm(w, s) && Has(s, source) && text !in s.public
    ensures Calm(w, Link(s, source, Public(text)))
  {
    LinkKeeps(s, source, Public(text));
  }

  /** Moving a link from a private to a public name changes no link count. */
  lemma MoveCounts(c: State, d: State, text: string, tag: Tag, i: Inode)
    requires tag in c.private && text !in c.public
    requires d.public == c.public[text := c.private[tag]] && d.private == c.private - {tag}
    ensures NLink(d, i) == NLink(c, i)
  {
    UnbindCounts(c, Private(tag), i);
    BindCounts(Unbind(c, Private(tag)), Public(text), c.private[tag], i);
    SameLinks(d, Bind(Unbind(c, Private(tag)), Public(text), c.private[tag]));
  }

  /** Withdrawing a publication puts the directory back exactly as it was before it. */
  lemma UndoExact(w: Writers, s: State, t: State, c: State, pub: Pub)
    requires Calm(w, c) && Took(s, t, pub) && Stands(t, c)
    ensures
      var u := Undo(w, c, pub);
      && u.ok && Calm(w, u.s) && SameNames(s, u.s) && u.s.files == c.files && u.s.next == c.next
  {
    hide RemoveOwned, RestoreOld, Balances, NLink, FreshTokens;
    var q, p := pub.q, pub.p;
    QuietRemoval(w, c, Public(q.text), OwnStaged(p, q), q.tries);
    var c1 := RemoveOwned(w, c, Public(q.text), OwnStaged(p, q), q.tries, NoFault).s;
    if q.expected.None? {
      assert s.public[q.text := p.staged] - {q.text} == s.public;
    } else {
      var e := q.expected.value;
      OnlyHeld(t, c1, pub);
      QuietReturn(w, c1, pub);
      assert (t.public - {q.text})[q.text := e.inode] == s.public;
      assert s.private[p.old_ := e.inode] - {p.old_} == s.private;
    }
  }

  lemma OnlyHeld(t: State, c1: State, pub: Pub)
    requires pub.q.expected.Some? && pub.q.text in t.public && t.public[pub.q.text] == pub.p.staged
    requires pub.p.old_ in t.private && t.private[pub.p.old_] == pub.q.expected.value.inode
    requires NLink(t, pub.q.expected.value.inode) == 1
    requires c1.public == t.public - {pub.q.text} && c1.private == t.private
    ensures NLink(c1, pub.q.expected.value.inode) == 1
  {
    hide NLink;
    var i := pub.q.expected.value.inode;
    if t.public[pub.q.text] == i {
      OneNameOnly(t, pub.q.text, pub.p.old_);
    }
    UnbindCounts(t, Public(pub.q.text), i);
    SameLinks(c1, Unbind(t, Public(pub.q.text)));
  }

  // ---------------------------------------------------------------- whole transactions

  /** The publications took the directory through these states, in order. */
  ghost predicate Run(states: seq<State>, pubs: seq<Pub>) {
    && |states| == |pubs| + 1
    && (forall k :: 0 <= k < |pubs| ==> Leg(states, pubs, k))
  }

  ghost predicate Leg(states: seq<State>, pubs: seq<Pub>, k: nat)
    requires |states| == |pubs| + 1 && k < |pubs|
  {
    Took(states[k], states[k + 1], pubs[k]) && FilesKept(states[k], states[k + 1])
  }

  lemma {:induction false} FilesFrom(states: seq<State>, pubs: seq<Pub>, k: nat)
    requires Run(states, pubs) && k <= |pubs|
    ensures FilesKept(states[k], states[|pubs|])
    decreases |pubs| - k
  {
    if k < |pubs| {
      assert Leg(states, pubs, k);
      FilesFrom(states, pubs, k + 1);
    }
  }

  /** Rollback restores the directory the transaction started from, name by name, and leaves no
      private name behind: for any number of publications, on any names, repeated or not. */
  lemma {:induction false} RollbackRestores(w: Writers, states: seq<State>, pubs: seq<Pub>, c: State)
    requires Calm(w, c) && Run(states, pubs) && Stands(states[|pubs|], c)
    ensures
      var u := RollbackAll(w, c, pubs);
      Calm(w, u) && SameNames(states[0], u) && u.files == c.files
    decreases |pubs|
  {
    hide Undo, Took, Calm;
    if pubs != [] {
      var n := |pubs| - 1;
      assert Leg(states, pubs, n);
      UndoExact(w, states[n], states[n + 1], c, pubs[n]);
      FilesFrom(states, pubs, n);
      var c1 := Undo(w, c, pubs[n]).s;
      var earlier, before := pubs[..n], states[..n + 1];
      forall k | 0 <= k < |earlier|
        ensures Leg(before, earlier, k)
      {
        assert Leg(states, pubs, k);
      }
      RollbackRestores(w, before, earlier, c1);
    }
  }

  // ---------------------------------------------------------------- finalization

  lemma {:induction false} CheckAllKeeps(w: Writers, s: State, pubs: seq<Pub>, struck: nat -> bool, k: nat)
    requires Calm(w, s)
    ensures var step := CheckAll(w, s, pubs, struck, k); Calm(w, step.s) && SameNames(s, step.s) && step.s.files == s.files
    ensures CheckAll(w, s, pubs, struck, k).s.next == s.next
    decreases |pubs|
  {
    hide Read, Calm;
    if pubs != [] {
      QuietStep(w, s);
      QuietRead(w, s, Public(pubs[0].q.text), MAX_CONTROL_BYTES);
      var step := Check(w, s, pubs[0], struck(k));
      if step.ok {
        CheckAllKeeps(w, step.s, pubs[1..], struck, k + 1);
      }
    }
  }

  /** An owned removal of a private name leaves the public names alone, fault or not. */
  lemma {:induction false} PublicUntouched(w: Writers, s: State, tag: Tag, o: Owner, tries: nat, fault: Fault)
    requires Quiet(w)
    ensures RemoveOwned(w, s, Private(tag), o, tries, fault).s.public == s.public
  {
    hide Reserve, Settle;
    ReserveUntouched(w, s, tag, tries, fault);
    var claim := Reserve(w, s, Private(tag), tries, fault);
    if claim.c.Claimed? {
      SettleUntouched(w, claim.s, tag, claim.c.pending, o, fault);
    }
  }

  lemma SettleUntouched(w: Writers, s: State, tag: Tag, pending: Tag, o: Owner, fault: Fault)
    requires Quiet(w)
    ensures Settle(w, s, Private(tag), pending, o, fault).s.public == s.public
  {
    hide Inspect, Restore, Discard;
    InspectUntouched(w, s, pending, o);
    var look := Inspect(w, s, pending, o);
    RestoreUntouched(w, w(s), tag, pending, fault);
    RestoreUntouched(w, look.s, tag, pending, fault);
    assert Discard(w, look.s, pending, fault).s.public == look.s.public by {
      DiscardUntouched(w, look.s, pending, fault);
    }
  }

  lemma InspectUntouched(w: Writers, s: State, pending: Tag, o: Owner)
    requires Quiet(w)
    ensures Inspect(w, s, pending, o).s.public == s.public
  {}

  lemma RestoreUntouched(w: Writers, s: State, tag: Tag, pending: Tag, fault: Fault)
    requires Quiet(w)
    ensures Restore(w, s, Private(tag), pending, fault).s.public == s.public
  {}

  lemma DiscardUntouched(w: Writers, s: State, pending: Tag, fault: Fault)
    requires Quiet(w)
    ensures Discard(w, s, pending, fault).s.public == s.public
  {}

  lemma {:induction false} ReserveUntouched(w: Writers, s: State, tag: Tag, tries: nat, fault: Fault)
    requires Quiet(w)
    ensures Reserve(w, s, Private(tag), tries, fault).s.public == s.public
    decreases tries
  {
    if tries > 0 {
      ReserveUntouched(w, w(Draw(s)), tag, tries - 1, fault);
    }
  }

  /** Dropping a predecessor never touches a public name; if it reports an error, it has not
      touched a private one either, whatever fault struck. */
  lemma DropKeeps(w: Writers, s: State, pub: Pub, fault: Fault)
    requires Calm(w, s) && IsControl(pub.p)
    ensures
      var step := DropPredecessor(w, s, pub, fault);
      && step.s.public == s.public
      && (!step.ok ==> Calm(w, step.s) && SameNames(s, step.s) && FilesKept(s, step.s) && step.pub == pub)
      && (pub.q.expected.None? ==> step == OpStep(s, pub, true))
  {
    hide RemoveOwned, Valid, FreshTokens, FilesKept;
    if pub.q.expected.Some? && pub.p.oldLinked && pub.p.oldIdentity.Some? {
      var e := pub.q.expected.value;
      var o := Owner(Regular, pub.p.oldIdentity.value, Some(e.size), Some(e.digest));
      PublicUntouched(w, s, pub.p.old_, o, pub.q.tries, fault);
      FailedRemoval(w, s, pub.p.old_, o, pub.q.tries, fault);
      var removal := RemoveOwned(w, s, Private(pub.p.old_), o, pub.q.tries, fault);
      if pub.p.old_ in removal.s.private {
        QuietStep(w, removal.s);
        StillFiles(s, removal.s, w(removal.s));
      }
    }
  }

  lemma StillFiles(a: State, b: State, c: State)
    requires FilesKept(a, b) && c.files == b.files && c.next == b.next
    ensures FilesKept(a, c)
  {}

  /** A removal that leaves a private name in place has changed no private name. */
  lemma FailedRemoval(w: Writers, s: State, tag: Tag, o: Owner, tries: nat, fault: Fault)
    requires Calm(w, s) && tag.role == ControlOld
    ensures
      var step := RemoveOwned(w, s, Private(tag), o, tries, fault);
      && FilesKept(s, step.s)
      && (tag in step.s.private || step.r.Absent? || step.r.Restored? ==> step.s.private == s.private && Calm(w, step.s))
  {
    hide RemoveOwned, Balances;
    RemoveOwnedConserves(w, s, Private(tag), o, tries, fault);
  }

  /** How many publications replaced a predecessor. */
  function Replacing(pubs: seq<Pub>): nat {
    if pubs == [] then 0 else (if pubs[0].q.expected.Some? then 1 else 0) + Replacing(pubs[1..])
  }

  lemma {:induction false} DropNone(w: Writers, s: State, pubs: seq<Pub>, faults: nat -> Fault, k: nat)
    requires Replacing(pubs) == 0
    ensures DropAll(w, s, pubs, faults, k) == DropAllStep(s, pubs, true)
    decreases |pubs|
  {
    if pubs != [] {
      DropNone(w, s, pubs[1..], faults, k + 1);
    }
  }

  /** What a drop of several predecessors leaves: public names alone, and everything else too if it
      reports an error. */
  ghost predicate DropsNothing(w: Writers, s: State, pubs: seq<Pub>, step: DropAllStep) {
    && step.s.public == s.public
    && (!step.ok ==> step.pubs == pubs && Calm(w, step.s) && SameNames(s, step.s) && FilesKept(s, step.s))
  }

  lemma DropTheOne(w: Writers, s: State, pubs: seq<Pub>, faults: nat -> Fault, k: nat)
    requires Calm(w, s) && pubs != [] && IsControl(pubs[0].p) && Replacing(pubs[1..]) == 0
    ensures DropsNothing(w, s, pubs, DropAll(w, s, pubs, faults, k))
  {
    hide DropPredecessor, Calm, FilesKept, SameNames;
    DropKeeps(w, s, pubs[0], faults(k));
    var step := DropPredecessor(w, s, pubs[0], faults(k));
    DropNone(w, step.s, pubs[1..], faults, k + 1);
    assert pubs == [pubs[0]] + pubs[1..];
  }

  /** With at most one predecessor to drop, dropping fails without effect or not at all. */
  lemma {:induction false} DropAtMostOne(w: Writers, s: State, pubs: seq<Pub>, faults: nat -> Fault, k: nat)
    requires Calm(w, s) && Replacing(pubs) <= 1
    requires forall j :: 0 <= j < |pubs| ==> IsControl(pubs[j].p)
    ensures DropsNothing(w, s, pubs, DropAll(w, s, pubs, faults, k))
    decreases |pubs|
  {
    hide DropPredecessor, Calm, FilesKept, SameNames;
    if pubs != [] {
      assert IsControl(pubs[0].p);
      if Replacing(pubs[1..]) == 0 {
        DropTheOne(w, s, pubs, faults, k);
      } else {
        DropKeeps(w, s, pubs[0], faults(k));
        DropAtMostOne(w, s, pubs[1..], faults, k + 1);
        assert pubs == [pubs[0]] + pubs[1..];
      }
    }
  }

  /** Atomicity: with no other writer, whatever errors strike the verifications
      and whatever fault strikes each drop, a transaction of
      any number of creations and at most one replacement ends with every new generation public,
      or with exactly the directory it started from. */
  lemma FinalizeIsAtomic(w: Writers, states: seq<State>, pubs: seq<Pub>, c: State, faults: Faults)
    requires Calm(w, c) && Run(states, pubs) && Stands(states[|pubs|], c) && Replacing(pubs) <= 1
    ensures
      var end := FinalizeAll(w, c, pubs, faults);
      if end.committed then end.s.public == states[|pubs|].public else SameNames(states[0], end.s)
  {
    hide CheckAll, DropAll, RollbackAll, Took, Calm;
    CheckAllKeeps(w, c, pubs, faults.check, 0);
    var checked := CheckAll(w, c, pubs, faults.check, 0);
    if !checked.ok {
      RollbackRestores(w, states, pubs, checked.s);
    } else {
      forall j | 0 <= j < |pubs|
        ensures IsControl(pubs[j].p)
      {
        assert Leg(states, pubs, j);
        TookControl(states[j], states[j + 1], pubs[j]);
      }
      DropAtMostOne(w, checked.s, pubs, faults.drop, 0);
      var dropped := DropAll(w, checked.s, pubs, faults.drop, 0);
      if !dropped.ok {
        RollbackRestores(w, states, pubs, dropped.s);
      }
    }
  }

  lemma TookControl(s: State, t: State, pub: Pub)
    requires Took(s, t, pub)
    ensures IsControl(pub.p)
  {}

  // ---------------------------------------------------------------- what a quiet write publishes

  lemma QuietPrecheck(w: Writers, s: State, q: Request)
    requires Calm(w, s)
    ensures
      var (t, go) := Precheck(w, s, q);
      && Calm(w, t) && SameNames(s, t) && t.files == s.files && t.next == s.next
      && (go && q.expected.Some? ==> q.expected.value.size <= MAX_CONTROL_BYTES && q.text in t.public)
      && (go && q.expected.None? && q.mustNotExist ==> q.text !in t.public)
  {
    hide Read, Calm;
    QuietStep(w, s);
    QuietRead(w, w(s), Public(q.text), MAX_CONTROL_BYTES);
  }

  /** A private name made from a token already drawn takes none of those still to come. */
  lemma FreshBind(s: State, tag: Tag, j: nat, i: Inode)
    requires FreshTokens(s) && j < s.drawn && tag.token == s.tokens(j)
    ensures forall k: nat, r: Role :: s.drawn <= k ==> Tag(r, s.tokens(k)) !in s.private[tag := i]
  {}

  lemma QuietDraw(w: Writers, s: State)
    requires Calm(w, s)
    ensures Calm(w, s.(drawn := s.drawn + 3))
  {
    SameLinks(s, s.(drawn := s.drawn + 3));
  }

  lemma QuietCreate(w: Writers, s: State, tag: Tag, j: nat, bytes: Bytes, mtime: int)
    requires Calm(w, s) && tag !in s.private && j < s.drawn && tag.token == s.tokens(j)
    ensures Calm(w, Create(s, tag, bytes, mtime))
  {
    CreateKeeps(s, tag, bytes, mtime);
    FreshBind(s, tag, j, s.next);
  }

  lemma QuietHide(w: Writers, s: State, source: Name, tag: Tag, j: nat)
    requires Calm(w, s) && Has(s, source) && tag !in s.private && j < s.drawn && tag.token == s.tokens(j)
    ensures Calm(w, Link(s, source, Private(tag)))
  {
    LinkKeeps(s, source, Private(tag));
    FreshBind(s, tag, j, At(s, source));
  }

  /** Staging, when it succeeds quietly, adds one private name for one new file. */
  lemma QuietStage(w: Writers, s: State, q: Request)
    requires Calm(w, s) && q.tries > 0 && Stage(w, s, q).ok
    ensures
      var ph := Stage(w, s, q);
      && Calm(w, ph.s) && ph.p.staged == s.next && ph.p.new_ !in s.private
      && ph.s.public == s.public && ph.s.private == s.private[ph.p.new_ := s.next]
      && ph.s.files == s.files[s.next := File(Regular, q.bytes, q.mtime)] && ph.s.next == s.next + 1
      && ph.p.old_.token == s.tokens(s.drawn + 2) && s.drawn + 3 <= ph.s.drawn && ph.s.tokens == s.tokens
      && IsControl(ph.p)
  {
    hide Calm, StageClaim;
    QuietDraw(w, s);
    var s0 := s.(drawn := s.drawn + 3);
    QuietStep(w, s0);
    var s1 := w(s0);
    var p := Names(s).(staged := s1.next);
    QuietCreate(w, s1, p.stage, s.drawn, q.bytes, q.mtime);
    var s2 := Create(s1, p.stage, q.bytes, q.mtime);
    QuietStep(w, s2);
    var s3 := w(s2);
    QuietHide(w, s3, Private(p.stage), p.new_, s.drawn + 1);
    var s4 := Link(s3, Private(p.stage), Private(p.new_));
    QuietStageClaim(w, s4, p.(stageLinked := true, newLinked := true), q);
    assert s4.private - {p.stage} == s.private[p.new_ := s.next];
  }

  lemma QuietStageClaim(w: Writers, s: State, p: Progress, q: Request)
    requires Calm(w, s) && q.tries > 0 && StageClaim(w, s, p, q).ok && p.stage.role == ControlStage
    ensures
      var ph := StageClaim(w, s, p, q);
      && Calm(w, ph.s) && ph.s.public == s.public && ph.s.private == s.private - {p.stage}
      && ph.s.files == s.files && ph.s.next == s.next && ph.s.tokens == s.tokens && s.drawn <= ph.s.drawn
      && ph.p == p.(stageLinked := false, verified := true)
  {
    hide RemoveOwned, Read, Calm;
    QuietRemoval(w, s, Private(p.stage), OwnStaged(p, q), q.tries);
    var removal := RemoveOwned(w, s, Private(p.stage), OwnStaged(p, q), q.tries, NoFault);
    QuietRead(w, removal.s, Private(p.new_), |q.bytes|);
  }

  /** Claiming a predecessor, when it succeeds quietly, moves its one link to the private name. */
  lemma QuietClaim(w: Writers, s: State, p: Progress, q: Request, j: nat)
    requires Calm(w, s) && q.tries > 0 && q.expected.Some? && ClaimOld(w, s, p, q).ok
    requires j < s.drawn && p.old_.token == s.tokens(j) && p.old_.role == ControlOld
    ensures
      var ph := ClaimOld(w, s, p, q);
      var e := q.expected.value;
      && Calm(w, ph.s) && q.text in s.public && s.public[q.text] == e.inode && p.old_ !in s.private
      && ph.s.public == s.public - {q.text} && ph.s.private == s.private[p.old_ := e.inode]
      && ph.s.files == s.files && ph.s.next == s.next
      && Is(ph.s, e.inode, e.size, e.digest) && NLink(ph.s, e.inode) == 1
      && ph.p == p.(oldLinked := true, oldIdentity := Some(e.inode), aside := Some(e.inode), vacated := true)
  {
    hide Calm, VacateOld, NLink;
    QuietStep(w, s);
    var s1 := w(s);
    QuietHide(w, s1, Public(q.text), p.old_, j);
    var s2 := Link(s1, Public(q.text), Private(p.old_));
    QuietVacate(w, s2, p.(oldLinked := true, aside := Some(s1.public[q.text])), q);
  }

  lemma QuietVacate(w: Writers, s: State, p: Progress, q: Request)
    requires Calm(w, s) && q.tries > 0 && q.expected.Some? && VacateOld(w, s, p, q).ok
    requires q.text in s.public && p.old_ in s.private && s.private[p.old_] == s.public[q.text]
    ensures
      var ph := VacateOld(w, s, p, q);
      var e := q.expected.value;
      && Calm(w, ph.s) && s.private[p.old_] == e.inode
      && ph.s.public == s.public - {q.text} && ph.s.private == s.private
      && ph.s.files == s.files && ph.s.next == s.next
      && Is(ph.s, e.inode, e.size, e.digest) && NLink(ph.s, e.inode) == 1
      && ph.p == p.(oldIdentity := Some(e.inode), vacated := true)
  {
    hide RemoveOwned, CheckOld, Calm, NLink;
    var o := OwnExpected(q.expected.value);
    QuietRemoval(w, s, Public(q.text), o, q.tries);
    var vacated := RemoveOwned(w, s, Public(q.text), o, q.tries, NoFault);
    QuietCheckOld(w, vacated.s, p.(vacated := vacated.r.Removed?), q);
    if q.text in vacated.s.public {
      OneNameOnly(vacated.s, q.text, p.old_);
    }
  }

  lemma QuietCheckOld(w: Writers, s: State, p: Progress, q: Request)
    requires Calm(w, s) && q.expected.Some? && CheckOld(w, s, p, q).ok
    ensures
      var ph := CheckOld(w, s, p, q);
      var e := q.expected.value;
      && Calm(w, ph.s) && SameNames(s, ph.s) && ph.s.files == s.files && ph.s.next == s.next
      && p.old_ in s.private && s.private[p.old_] == e.inode && Is(s, e.inode, e.size, e.digest)
      && NLink(s, e.inode) == 1 && NLink(ph.s, e.inode) == 1
      && ph.p == p.(oldIdentity := Some(e.inode))
  {
    hide Read, RestoreOld, Calm, NLink;
    QuietRead(w, s, Private(p.old_), MAX_CONTROL_BYTES);
    SameLinks(s, Read(w, s, Private(p.old_), MAX_CONTROL_BYTES).s);
  }

  /** Exposing, when it succeeds quietly, moves the new file's one link to the public name. */
  lemma QuietExpose(w: Writers, s: State, p: Progress, q: Request)
    requires Calm(w, s) && q.tries > 0 && IsControl(p) && Expose(w, s, p, q).ok
    requires p.new_ in s.private && s.private[p.new_] == p.staged
    ensures
      var ph := Expose(w, s, p, q);
      && Calm(w, ph.s) && q.text !in s.public
      && ph.s.public == s.public[q.text := p.staged] && ph.s.private == s.private - {p.new_}
      && ph.s.files == s.files && ph.s.next == s.next
      && ph.p == p.(published := true, newLinked := false)
  {
    hide Calm, RemoveOwned, Read, NLink, Touch;
    QuietStep(w, s);
    var s1 := w(s);
    QuietLink(w, s1, Private(p.new_), q.text);
    var s2 := Link(s1, Private(p.new_), Public(q.text));
    QuietRemoval(w, s2, Private(p.new_), OwnStaged(p, q), q.tries);
    var removal := RemoveOwned(w, s2, Private(p.new_), OwnStaged(p, q), q.tries, NoFault);
    QuietRead(w, removal.s, Public(q.text), |q.bytes|);
    QuietRead(w, Read(w, removal.s, Public(q.text), |q.bytes|).s, Public(q.text), |q.bytes|);
  }

  /** A write that succeeds with no other writer about is one leg of a transaction's run: the
      state machine of the write and the exact effect that rollback inverts agree. */
  lemma QuietWriteTook(w: Writers, s: State, q: Request)
    requires Calm(w, s) && q.tries > 0 && WriteBytes(w, s, q).out.Published?
    ensures
      var step := WriteBytes(w, s, q);
      Calm(w, step.s) && Took(s, step.s, Pub(step.out.p, q)) && FilesKept(s, step.s)
  {
    hide Precheck, Stage, ClaimOld, Expose, WriteBytes, NLink, FreshTokens, Balances;
    PublishedPath(w, s, q);
    QuietPrecheck(w, s, q);
    var (s1, _) := Precheck(w, s, q);
    QuietStage(w, s1, q);
    var staged := Stage(w, s1, q);
    QuietKept(w, s, q);
    if q.expected.None? {
      QuietExpose(w, staged.s, staged.p, q);
      assert s.private[staged.p.new_ := s.next] - {staged.p.new_} == s.private;
    } else {
      QuietReplace(w, s1, staged, q);
    }
  }

  /** A published write passed every phase. */
  lemma PublishedPath(w: Writers, s: State, q: Request)
    requires WriteBytes(w, s, q).out.Published?
    ensures
      var (s1, go) := Precheck(w, s, q);
      var staged := Stage(w, s1, q);
      var last := if q.expected.None? then Expose(w, staged.s, staged.p, q)
                  else var claimed := ClaimOld(w, staged.s, staged.p, q); Expose(w, claimed.s, claimed.p, q);
      && go && staged.ok && last.ok && WriteBytes(w, s, q) == WriteStep(last.s, Published(last.p))
      && (q.expected.Some? ==> ClaimOld(w, staged.s, staged.p, q).ok)
  {
    hide Precheck, Stage, ClaimOld, Expose, RestoreOld, DropStagings, RemoveOwned;
  }

  /** What the no-lost-update theorem already says of a published write. */
  lemma QuietKept(w: Writers, s: State, q: Request)
    requires Calm(w, s) && WriteBytes(w, s, q).out.Published?
    ensures
      var step := WriteBytes(w, s, q);
      Is(step.s, step.out.p.staged, |q.bytes|, Sha256(q.bytes)) && NLink(step.s, step.out.p.staged) == 1
  {
    hide WriteBytes, Ledger, Balances, NLink;
    NoLostUpdate(w, s, q);
  }

  lemma QuietReplace(w: Writers, s: State, staged: Phase, q: Request)
    requires Calm(w, staged.s) && q.tries > 0 && q.expected.Some? && IsControl(staged.p)
    requires staged.p.new_ !in s.private && staged.s.private == s.private[staged.p.new_ := staged.p.staged]
    requires staged.s.public == s.public && staged.p.staged in staged.s.files
    requires exists j: nat :: j < staged.s.drawn && staged.p.old_.token == staged.s.tokens(j)
    requires ClaimOld(w, staged.s, staged.p, q).ok
    requires var claimed := ClaimOld(w, staged.s, staged.p, q); Expose(w, claimed.s, claimed.p, q).ok
    requires forall t :: t in s.public ==> s.public[t] != staged.p.staged
    ensures
      var claimed := ClaimOld(w, staged.s, staged.p, q);
      var ph := Expose(w, claimed.s, claimed.p, q);
      var e := q.expected.value;
      && Calm(w, ph.s) && q.text in s.public && s.public[q.text] == e.inode && staged.p.old_ !in s.private
      && ph.s.public == s.public[q.text := staged.p.staged] && ph.s.private == s.private[staged.p.old_ := e.inode]
      && ph.s.files == staged.s.files && ph.s.next == staged.s.next
      && Is(ph.s, e.inode, e.size, e.digest) && NLink(ph.s, e.inode) == 1
      && ph.p == staged.p.(oldLinked := true, oldIdentity := Some(e.inode), aside := Some(e.inode), vacated := true,
                           published := true, newLinked := false)
  {
    hide ClaimOld, Expose, Calm, NLink;
    var j: nat :| j < staged.s.drawn && staged.p.old_.token == staged.s.tokens(j);
    var e, p := q.expected.value, staged.p;
    QuietClaim(w, staged.s, p, q, j);
    var claimed := ClaimOld(w, staged.s, p, q);
    QuietExpose(w, claimed.s, claimed.p, q);
    var ph := Expose(w, claimed.s, claimed.p, q);
    MoveCounts(claimed.s, ph.s, q.text, p.new_, e.inode);
    assert (s.public - {q.text})[q.text := p.staged] == s.public[q.text := p.staged];
    assert s.private[p.new_ := p.staged][p.old_ := e.inode] - {p.new_} == s.private[p.old_ := e.inode];
  }
}
