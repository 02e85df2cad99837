/** `remove_owned_at` (src/sddgov/fs_security.py) and the Broker's socket cleanup: remove a name
    only while it still denotes one expected generation, with other writers running.

    There is no compare-and-unlink system call, so the code moves whatever is at the name to a
    private name, looks at it there, and either unlinks it or moves it back exclusively. */
module OwnedRemoval {
  import opened Common
  import opened Filesystem

  /** Where an injected operating-system error strikes. */
  datatype Fault = NoFault | AtReserve | AtInspect | AtUnlink | AtRestore | AtSync

  datatype Removal =
    | Removed                          // True: the expected link is gone
    | Absent                           // False: nothing was at the name
    | Restored                         // False: another generation, moved back
    | Unreserved                       // error: no private name could be reserved
    | Preserved(pending: Tag)          // error: a later writer took the name; the claim stays pending
    | Raised(left: Option<Tag>)        // error: injected fault, with the pending name it left, if any

  datatype Claim = Claimed(pending: Tag) | Vacant | NoName | ClaimFault

  datatype ClaimStep = ClaimStep(s: State, c: Claim)
  datatype RemovalStep = RemovalStep(s: State, r: Removal)
  datatype InspectStep = InspectStep(s: State, owned: bool)

  /** Which generation a caller calls its own: identity and kind, and optionally size and digest. */
  datatype Owner = Owner(kind: Kind, inode: Inode, size: Option<nat>, digest: Option<Digest>)

  predicate Owns(o: Owner, i: Inode, f: File) {
    && i == o.inode
    && f.kind == o.kind
    && (o.size.Some? ==> |f.bytes| == o.size.value)
    && (o.digest.Some? ==> Sha256(f.bytes) == o.digest.value)
  }

  predicate IsPending(n: Name) {
    n.Private? && n.tag.role == CleanupPending
  }

  const SOCKET_CLEANUP_TRIES: nat := 4

  // ---------------------------------------------------------------- the protocol

  /** Move what is at `name` to a private name nobody else knows. */
  function Reserve(w: Writers, s: State, name: Name, tries: nat, fault: Fault): ClaimStep
    decreases tries
  {
    if tries == 0 then ClaimStep(s, NoName) else
      var pending := Tag(CleanupPending, s.tokens(s.drawn));
      var s1 := w(Draw(s));
      if fault == AtReserve then ClaimStep(s1, ClaimFault)
      else if !Has(s1, name) then ClaimStep(s1, Vacant)
      else if pending in s1.private then Reserve(w, s1, name, tries - 1, fault)
      else ClaimStep(Rename(s1, name, Private(pending)), Claimed(pending))
  }

  /** Move a claimed generation back, unless a later writer took the name or the move itself fails. */
  function Restore(w: Writers, s: State, name: Name, pending: Tag, fault: Fault): RemovalStep {
    var s1 := w(s);
    if fault == AtRestore then RemovalStep(s1, Raised(Some(pending)))
    else if pending !in s1.private then RemovalStep(s1, Absent)
    else if Has(s1, name) then RemovalStep(s1, Preserved(pending))
    else RemovalStep(Rename(s1, Private(pending), name), Restored)
  }

  /** Is the claim ours? Its bytes are read only when a size or a digest is asked for, and the
      reading counts only if link count and change time stood still. */
  function Inspect(w: Writers, s: State, pending: Tag, o: Owner): InspectStep {
    var s1 := w(s);
    if pending !in s1.private || s1.private[pending] !in s1.files then InspectStep(s1, false) else
      var i := s1.private[pending];
      if i != o.inode || s1.files[i].kind != o.kind then InspectStep(s1, false)
      else if o.size.None? && o.digest.None? then InspectStep(s1, true)
      else
        var s2 := w(s1);
        InspectStep(s2, Owns(o, i, s1.files[i]) && Ctime(s2, i) == Ctime(s1, i) && NLink(s2, i) == NLink(s1, i))
  }

  /** Unlink the claim if it is ours, put it back otherwise. */
  function Settle(w: Writers, s: State, name: Name, pending: Tag, o: Owner, fault: Fault): RemovalStep {
    if fault == AtInspect then
      var back := Restore(w, w(s), name, pending, fault);
      RemovalStep(back.s, Raised(if back.r.Preserved? then Some(pending) else None))
    else
      var look := Inspect(w, s, pending, o);
      if look.owned then Discard(w, look.s, pending, fault)
      else
        var back := Restore(w, look.s, name, pending, fault);
        RemovalStep(back.s, if back.r.Restored? && fault == AtSync then Raised(None) else back.r)
  }

  function Discard(w: Writers, s: State, pending: Tag, fault: Fault): RemovalStep {
    var s1 := w(s);
    if fault == AtUnlink then RemovalStep(s1, Raised(Some(pending)))
    else RemovalStep(if pending in s1.private then Unlink(s1, Private(pending)) else s1,
                     if fault == AtSync then Raised(None) else Removed)
  }

  function RemoveOwned(w: Writers, s: State, name: Name, o: Owner, tries: nat, fault: Fault): RemovalStep {
    var claim := Reserve(w, s, name, tries, fault);
    match claim.c
    case Claimed(pending) => Settle(w, claim.s, name, pending, o, fault)
    case Vacant => RemovalStep(claim.s, Absent)
    case NoName => RemovalStep(claim.s, Unreserved)
    case ClaimFault => RemovalStep(claim.s, Raised(None))
  }

  // ---------------------------------------------------------------- each part keeps the directory

  function Without(s: State, name: Name): PrivateMap {
    if name.Private? then s.private - {name.tag} else s.private
  }

  /** `i` was at `name`, or, the name being public, another writer could have put it there since. */
  predicate Stood(s: State, name: Name, i: Inode) {
    if name.Public? then i >= s.next || i in s.public.Values else Has(s, name) && At(s, name) == i
  }

  /** What was at the name is now at `pending`, and the name is vacant. */
  ghost predicate ClaimHeld(s: State, t: State, name: Name, pending: Tag) {
    && Valid(t) && Evolves(s, t) && t.made == s.made && t.gone == s.gone
    && pending.role == CleanupPending && pending !in s.private && pending in t.private
    && t.private == Without(s, name)[pending := t.private[pending]]
    && Stood(s, name, t.private[pending])
    && !Has(t, name)
  }

  ghost predicate Undisturbed(s: State, t: State) {
    Valid(t) && Evolves(s, t) && t.private == s.private && t.made == s.made && t.gone == s.gone
  }

  lemma DrawValid(s: State)
    requires Valid(s)
    ensures Valid(Draw(s))
  {
    SameLinks(s, Draw(s));
  }

  lemma DrawKeeps(w: Writers, s: State)
    requires Lawful(w) && Valid(s)
    ensures Undisturbed(s, w(Draw(s)))
  {
    hide Balances, NLink;
    DrawValid(s);
  }

  lemma ClaimOnce(s: State, s1: State, name: Name, pending: Tag)
    requires Undisturbed(s, s1) && !IsPending(name) && Has(s1, name)
    requires pending.role == CleanupPending && pending !in s1.private
    ensures ClaimHeld(s, Rename(s1, name, Private(pending)), name, pending)
  {
    RenameKeeps(s1, name, Private(pending));
  }

  lemma {:induction false} ReserveKeeps(w: Writers, s: State, name: Name, tries: nat, fault: Fault)
    requires Lawful(w) && Valid(s) && !IsPending(name)
    ensures
      var step := Reserve(w, s, name, tries, fault);
      && (if step.c.Claimed? then ClaimHeld(s, step.s, name, step.c.pending) else Undisturbed(s, step.s))
      && (step.c.ClaimFault? ==> fault == AtReserve)
      && (step.c.Vacant? ==> !Has(step.s, name))
    decreases tries
  {
    if tries > 0 {
      var pending := Tag(CleanupPending, s.tokens(s.drawn));
      var s1 := w(Draw(s));
      DrawKeeps(w, s);
      if fault != AtReserve && Has(s1, name) {
        if pending in s1.private {
          ReserveKeeps(w, s1, name, tries - 1, fault);
          LaterClaim(s, s1, Reserve(w, s1, name, tries - 1, fault), name);
        } else {
          ClaimOnce(s, s1, name, pending);
        }
      }
    }
  }

  lemma LaterClaim(s: State, s1: State, step: ClaimStep, name: Name)
    requires Undisturbed(s, s1)
    requires if step.c.Claimed? then ClaimHeld(s1, step.s, name, step.c.pending) else Undisturbed(s1, step.s)
    ensures if step.c.Claimed? then ClaimHeld(s, step.s, name, step.c.pending) else Undisturbed(s, step.s)
  {
    EvolvesTrans(s, s1, step.s);
  }

  /** A restore either puts the claim back at its name or leaves it pending, whole. */
  lemma RestoreKeeps(w: Writers, s: State, name: Name, pending: Tag, fault: Fault)
    requires Lawful(w) && Valid(s) && pending in s.private && !IsPending(name) && pending.role == CleanupPending
    requires name.Private? ==> !Has(s, name)
    ensures
      var t, r := Restore(w, s, name, pending, fault).s, Restore(w, s, name, pending, fault).r;
      && Valid(t) && FilesKept(s, t) && t.made == s.made && t.gone == s.gone
      && s.tokens == t.tokens && t.drawn == s.drawn
      && (r == Restored || r == Preserved(pending) || r == Raised(Some(pending)))
      && (r.Raised? <==> fault == AtRestore)
      && (!r.Restored? ==> Undisturbed(s, t))
      && (r.Preserved? ==> name.Public? && Has(t, name))
      && (r.Restored? && name.Public? ==>
            && t.private == s.private - {pending} && Has(t, name) && At(t, name) == s.private[pending]
            && Within(s.public.Values + {s.private[pending]}, s.next, t.public))
      && (r.Restored? && name.Private? ==>
            && t.private == (s.private - {pending})[name.tag := s.private[pending]]
            && PublicEvolves(s.public, s.next, t.public))
  {
    var s1 := w(s);
    if !Has(s1, name) {
      RenameKeeps(s1, Private(pending), name);
    }
  }

  lemma InspectKeeps(w: Writers, s: State, pending: Tag, o: Owner)
    requires Lawful(w) && Valid(s) && pending in s.private
    ensures
      var look := Inspect(w, s, pending, o);
      && Undisturbed(s, look.s) && look.s.drawn == s.drawn
      && (look.owned ==>
            && s.private[pending] in look.s.files && look.s.files[s.private[pending]] == s.files[s.private[pending]]
            && Owns(o, s.private[pending], s.files[s.private[pending]]))
  {
    var s1 := w(s);
    var s2 := w(s1);
    EvolvesTrans(s, s1, s2);
  }

  /** What is left pending, if anything. */
  function Left(r: Removal): Option<Tag> {
    match r
    case Preserved(p) => Some(p)
    case Raised(left) => left
    case _ => None
  }

  /** How the ledger moved: not at all, or by exactly the expected link, and then only because
      the generation inspected was the expected one. */
  ghost predicate LedgerMoved(s: State, t: State, o: Owner, r: Removal, fault: Fault) {
    && t.made == s.made
    && (t.gone == s.gone || t.gone == s.gone + multiset{o.inode})
    && (t.gone != s.gone ==> o.inode in t.files && Owns(o, o.inode, t.files[o.inode]))
    && (t.gone != s.gone ==> r == Removed || (r == Raised(None) && fault == AtSync))
    && (r == Removed ==> t.gone != s.gone)
  }

  /** Where the private names stand afterwards: the name's own entry is gone if the expected
      generation went, back where it was if it was restored, at the pending name otherwise. */
  ghost predicate PrivateNames(s: State, t: State, name: Name, r: Removal) {
    if t.gone != s.gone then t.private == Without(s, name)
    else match Left(r)
      case None => t.private == s.private
      case Some(p) =>
        && p.role == CleanupPending && p !in s.private && p in t.private
        && t.private == Without(s, name)[p := t.private[p]]
        && Stood(s, name, t.private[p])
  }

  lemma DiscardKeeps(w: Writers, s: State, pending: Tag, o: Owner, fault: Fault)
    requires Lawful(w) && Valid(s) && pending in s.private
    requires Owns(o, s.private[pending], s.files[s.private[pending]])
    ensures
      var t, r := Discard(w, s, pending, fault).s, Discard(w, s, pending, fault).r;
      && Valid(t) && Evolves(s, t) && LedgerMoved(s, t, o, r, fault)
      && (if t.gone != s.gone then t.private == s.private - {pending}
          else t.private == s.private && r == Raised(Some(pending)) && fault == AtUnlink)
  {
    var s1 := w(s);
    if fault != AtUnlink {
      UnlinkKeeps(s1, Private(pending));
    }
  }

  /** What a finished removal guarantees, seen from the state `s` it started in. */
  ghost predicate Settled(s: State, t: State, name: Name, o: Owner, r: Removal, fault: Fault) {
    && Valid(t) && Evolves(s, t) && LedgerMoved(s, t, o, r, fault) && PrivateNames(s, t, name, r)
    && (r.Preserved? ==> name.Public? && Has(t, name))
    && (r.Restored? ==> Has(t, name) && Stood(s, name, At(t, name)))
    && (r.Raised? ==> fault != NoFault)
    && (t.gone != s.gone ==> Stood(s, name, o.inode))
  }

  lemma SettleKeeps(w: Writers, s: State, s1: State, name: Name, pending: Tag, o: Owner, fault: Fault)
    requires Lawful(w) && Valid(s) && !IsPending(name) && ClaimHeld(s, s1, name, pending)
    ensures
      var t, r := Settle(w, s1, name, pending, o, fault).s, Settle(w, s1, name, pending, o, fault).r;
      && Settled(s, t, name, o, r, fault) && r != Absent && r != Unreserved
      && (t.gone != s.gone ==> s1.private[pending] == o.inode)
  {
    hide Inspect, Discard, Restore, Settled, Evolves;
    if fault == AtInspect {
      WaitClaimed(s, s1, w(s1), name, pending);
      PutBackSettles(w, s, w(s1), name, pending, o, fault);
    } else {
      InspectKeeps(w, s1, pending, o);
      var look := Inspect(w, s1, pending, o);
      WaitClaimed(s, s1, look.s, name, pending);
      if look.owned {
        DiscardClaim(w, s, look.s, name, pending, o, fault);
      } else {
        PutBackSettles(w, s, look.s, name, pending, o, fault);
      }
    }
  }

  lemma PutBackSettles(w: Writers, s: State, s2: State, name: Name, pending: Tag, o: Owner, fault: Fault)
    requires Lawful(w) && Valid(s) && !IsPending(name) && StillClaimed(s, s2, name, pending)
    ensures
      var back := Restore(w, s2, name, pending, fault);
      && (back.r == Restored || back.r == Preserved(pending) || (back.r == Raised(Some(pending)) && fault == AtRestore))
      && back.s.gone == s.gone
      && Settled(s, back.s, name, o, back.r, fault)
      && (fault != NoFault && back.r == Restored ==> Settled(s, back.s, name, o, Raised(None), fault))
      && (fault != NoFault && back.r == Preserved(pending) ==> Settled(s, back.s, name, o, Raised(Some(pending)), fault))
  {
    hide Restore;
    PutBack(w, s, s2, name, pending, fault);
  }

  lemma WaitClaimed(s: State, s1: State, s2: State, name: Name, pending: Tag)
    requires ClaimHeld(s, s1, name, pending) && Undisturbed(s1, s2)
    ensures StillClaimed(s, s2, name, pending)
  {
    EvolvesTrans(s, s1, s2);
  }

  lemma DiscardClaim(w: Writers, s: State, s2: State, name: Name, pending: Tag, o: Owner, fault: Fault)
    requires Lawful(w) && Valid(s) && StillClaimed(s, s2, name, pending)
    requires Owns(o, s2.private[pending], s2.files[s2.private[pending]])
    ensures
      var t, r := Discard(w, s2, pending, fault).s, Discard(w, s2, pending, fault).r;
      Settled(s, t, name, o, r, fault) && (r == Removed || r.Raised?)
  {
    hide Discard, Balances, NLink;
    DiscardKeeps(w, s2, pending, o, fault);
    EvolvesTrans(s, s2, Discard(w, s2, pending, fault).s);
    assert s2.private - {pending} == Without(s, name);
  }

  /** The claim, made from `s`, is still at its pending name in `s2`. */
  ghost predicate StillClaimed(s: State, s2: State, name: Name, pending: Tag) {
    && Valid(s2) && Evolves(s, s2) && s2.made == s.made && s2.gone == s.gone
    && pending.role == CleanupPending && pending !in s.private && pending in s2.private
    && s2.private == Without(s, name)[pending := s2.private[pending]]
    && Stood(s, name, s2.private[pending])
  }

  /** Restoring from any later point at which the claim is still private. */
  lemma PutBack(w: Writers, s: State, s2: State, name: Name, pending: Tag, fault: Fault)
    requires Lawful(w) && Valid(s) && !IsPending(name) && StillClaimed(s, s2, name, pending)
    ensures
      var t, r := Restore(w, s2, name, pending, fault).s, Restore(w, s2, name, pending, fault).r;
      && Valid(t) && Evolves(s, t) && t.made == s.made && t.gone == s.gone
      && (r == Restored || (r == Preserved(pending) && name.Public? && Has(t, name))
          || (r == Raised(Some(pending)) && fault == AtRestore))
      && (r.Restored? ==> t.private == s.private && Has(t, name) && Stood(s, name, At(t, name)))
      && (!r.Restored? ==> t.private == s2.private)
  {
    hide Restore;
    RestoreKeeps(w, s2, name, pending, fault);
    var t := Restore(w, s2, name, pending, fault).s;
    if Restore(w, s2, name, pending, fault).r.Restored? {
      assert s2.private - {pending} == Without(s, name);
      PutBackPublic(s, s2, t, name, pending);
    } else {
      EvolvesTrans(s, s2, t);
    }
  }

  lemma PutBackPublic(s: State, s2: State, t: State, name: Name, pending: Tag)
    requires Evolves(s, s2) && FilesKept(s2, t) && s2.tokens == t.tokens && s2.drawn <= t.drawn
    requires pending in s2.private && Stood(s, name, s2.private[pending])
    requires match name
             case Public(_) => Within(s2.public.Values + {s2.private[pending]}, s2.next, t.public)
             case Private(_) => PublicEvolves(s2.public, s2.next, t.public)
    ensures Evolves(s, t)
  {}

  // ---------------------------------------------------------------- the theorems

  /** The reservation moved exactly this inode aside. */
  predicate TookClaim(claim: ClaimStep, i: Inode) {
    claim.c.Claimed? && claim.c.pending in claim.s.private && claim.s.private[claim.c.pending] == i
  }

  /** Generation conservation, under every schedule of other writers and at most one injected
      fault: the only link this process may remove is one of the expected generation, `Removed`
      means exactly that link went, and in every other outcome no link went. A generation moved
      aside is back at its name or still at the pending name the outcome reports. */
  lemma RemoveOwnedConserves(w: Writers, s: State, name: Name, o: Owner, tries: nat, fault: Fault)
    requires Lawful(w) && Valid(s) && !IsPending(name)
    ensures
      var t, r := RemoveOwned(w, s, name, o, tries, fault).s, RemoveOwned(w, s, name, o, tries, fault).r;
      && Settled(s, t, name, o, r, fault)
      && (r.Absent? ==> !Has(t, name) && Reserve(w, s, name, tries, fault).c == Vacant)
      && (r.Unreserved? ==> Reserve(w, s, name, tries, fault) == ClaimStep(t, NoName))
      && (t.gone != s.gone ==> TookClaim(Reserve(w, s, name, tries, fault), o.inode))
  {
    hide Settle, Reserve;
    ReserveKeeps(w, s, name, tries, fault);
    var claim := Reserve(w, s, name, tries, fault);
    if claim.c.Claimed? {
      SettleKeeps(w, s, claim.s, name, claim.c.pending, o, fault);
    }
  }

  /** The Broker's cleanup of its socket is the same protocol, told apart by identity and kind alone
      and with fewer tries: it removes at most the one link of the socket it was given, and never
      a socket a restarted Broker has published since. */
  lemma SocketCleanupConserves(w: Writers, s: State, text: string, socket: Inode, fault: Fault, later: Inode)
    requires Lawful(w) && Valid(s) && later != socket
    ensures
      var o := Owner(Socket, socket, None, None);
      var t, r := RemoveOwned(w, s, Public(text), o, SOCKET_CLEANUP_TRIES, fault).s,
                  RemoveOwned(w, s, Public(text), o, SOCKET_CLEANUP_TRIES, fault).r;
      && Settled(s, t, Public(text), o, r, fault)
      && t.gone[later] == s.gone[later] && t.made[later] == s.made[later]
      && (t.gone[socket] > s.gone[socket] ==> socket in t.files && t.files[socket].kind == Socket)
  {
    hide RemoveOwned;
    RemoveOwnedConserves(w, s, Public(text), Owner(Socket, socket, None, None), SOCKET_CLEANUP_TRIES, fault);
  }

  /** With others that bind names to new files only, what is moved aside is what was at the name, or
      new. */
  lemma {:induction false} ReserveFresh(w: Writers, s: State, text: string, tries: nat)
    requires Lawful(w) && FreshOnly(w) && Valid(s)
    ensures
      var claim := Reserve(w, s, Public(text), tries, NoFault);
      claim.c.Claimed? ==>
        && claim.c.pending in claim.s.private
        && var i := claim.s.private[claim.c.pending];
           i >= s.next || (text in s.public && s.public[text] == i)
    decreases tries
  {
    hide Balances, NLink;
    if tries > 0 {
      DrawKeeps(w, s);
      DrawValid(s);
      assert FilesKept(s, w(Draw(s))) && Draw(s).next == s.next && Draw(s).public == s.public;
      ReserveFresh(w, w(Draw(s)), text, tries - 1);
    }
  }

  /** With others that only create and replace, a public name that was there is never found
      vacant, and unless the expected generation was removed the name is still occupied. */
  lemma RemoveOwnedUnderReplacement(w: Writers, s: State, text: string, o: Owner, tries: nat)
    requires Lawful(w) && Valid(s) && ReplaceOnly(w) && text in s.public
    ensures
      var t, r := RemoveOwned(w, s, Public(text), o, tries, NoFault).s, RemoveOwned(w, s, Public(text), o, tries, NoFault).r;
      && r != Absent
      && (r != Removed ==> text in t.public)
  {
    hide Settle, Reserve;
    RemoveOwnedConserves(w, s, Public(text), o, tries, NoFault);
    NeverVacant(w, s, text, tries);
  }

  lemma {:induction false} NeverVacant(w: Writers, s: State, text: string, tries: nat)
    requires Lawful(w) && Valid(s) && ReplaceOnly(w) && text in s.public
    ensures
      var claim := Reserve(w, s, Public(text), tries, NoFault);
      (claim.c == NoName && text in claim.s.public) || claim.c.Claimed?
    decreases tries
  {
    hide Balances, NLink, Evolves;
    if tries > 0 {
      DrawValid(s);
      assert Draw(s).public.Keys <= w(Draw(s)).public.Keys;
      NeverVacant(w, w(Draw(s)), text, tries - 1);
    }
  }

  /** With no other writer and no fault the protocol is an exact conditional unlink. */
  lemma RemoveOwnedQuiet(w: Writers, s: State, name: Name, o: Owner, tries: nat)
    requires Quiet(w) && Valid(s) && !IsPending(name) && FreshTokens(s) && tries > 0
    ensures
      var t, r := RemoveOwned(w, s, name, o, tries, NoFault).s, RemoveOwned(w, s, name, o, tries, NoFault).r;
      && t.files == s.files && t.next == s.next && FreshTokens(t)
      && (if !Has(s, name) then r == Absent && t.public == s.public && t.private == s.private
          else if Owns(o, At(s, name), s.files[At(s, name)])
          then r == Removed && t.public == Unbind(s, name).public && t.private == Unbind(s, name).private
          else r == Restored && t.public == s.public && t.private == s.private)
  {
    var p := Tag(CleanupPending, s.tokens(s.drawn));
    if Has(s, name) {
      var s1 := Rename(w(Draw(s)), name, Private(p));
      assert Reserve(w, s, name, tries, NoFault) == ClaimStep(s1, Claimed(p));
      QuietSettle(w, s, s1, name, p, o);
    }
  }

  lemma QuietSettle(w: Writers, s: State, s1: State, name: Name, p: Tag, o: Owner)
    requires Quiet(w) && Valid(s) && !IsPending(name) && Has(s, name)
    requires p.role == CleanupPending && p !in s.private
    requires s1 == Rename(w(Draw(s)), name, Private(p))
    ensures
      var t, r := Settle(w, s1, name, p, o, NoFault).s, Settle(w, s1, name, p, o, NoFault).r;
      && t.files == s.files && t.next == s.next && t.tokens == s.tokens && t.drawn == s.drawn + 1
      && (if Owns(o, At(s, name), s.files[At(s, name)])
          then r == Removed && t.public == Unbind(s, name).public && t.private == Unbind(s, name).private
          else r == Restored && t.public == s.public && t.private == s.private)
  {
    QuietInspect(w, s1, p, o);
    var look := Inspect(w, s1, p, o);
    assert s1.private - {p} == Unbind(s, name).private;
    if !look.owned {
      match name
      case Public(text) => assert (s.public - {text})[text := s.public[text]] == s.public;
      case Private(tag) => assert (s.private - {tag})[tag := s.private[tag]] == s.private;
    }
  }

  lemma QuietInspect(w: Writers, s: State, p: Tag, o: Owner)
    requires Quiet(w) && p in s.private && s.private[p] in s.files
    ensures
      var look := Inspect(w, s, p, o);
      && look.s == s.(calls := look.s.calls)
      && look.owned == Owns(o, s.private[p], s.files[s.private[p]])
  {
    SameLinks(w(s), w(w(s)));
  }

  // ---------------------------------------------------------------- the procedures

  class Directory {
    var state: State
    const w: Writers

    constructor (state: State, w: Writers)
      ensures this.state == state && this.w == w
    {
      this.state, this.w := state, w;
    }

    /** fs_security.remove_owned_at and broker._unlink_socket_if_identity: a retry loop for the
        private name, then the inspection. */
    method RemoveOwnedAt(name: Name, o: Owner, tries: nat, fault: Fault) returns (r: Removal)
      modifies this
      ensures RemovalStep(state, r) == RemoveOwned(w, old(state), name, o, tries, fault)
    {
      hide Settle, Has, Rename;
      var k := 0;
      while k < tries
        invariant 0 <= k <= tries
        invariant Reserve(w, old(state), name, tries, fault) == Reserve(w, state, name, tries - k, fault)
      {
        var pending := Tag(CleanupPending, state.tokens(state.drawn));
        state := w(Draw(state));
        if fault == AtReserve {
          return Raised(None);
        }
        if !Has(state, name) {
          return Absent;
        }
        if pending !in state.private {
          state := Rename(state, name, Private(pending));
          r := SettleClaim(name, pending, o, fault);
          return;
        }
        k := k + 1;
      }
      return Unreserved;
    }

    method SettleClaim(name: Name, pending: Tag, o: Owner, fault: Fault) returns (r: Removal)
      modifies this
      ensures RemovalStep(state, r) == Settle(w, old(state), name, pending, o, fault)
    {
      if fault == AtInspect {
        state := w(state);
        r := RestoreClaim(name, pending, fault);
        return Raised(if r.Preserved? then Some(pending) else None);
      }
      var look := Inspect(w, state, pending, o);
      state := look.s;
      if look.owned {
        state := w(state);
        if fault == AtUnlink {
          return Raised(Some(pending));
        }
        if pending in state.private {
          state := Unlink(state, Private(pending));
        }
        return if fault == AtSync then Raised(None) else Removed;
      }
      r := RestoreClaim(name, pending, fault);
      return if r.Restored? && fault == AtSync then Raised(None) else r;
    }

    method RestoreClaim(name: Name, pending: Tag, fault: Fault) returns (r: Removal)
      modifies this
      ensures RemovalStep(state, r) == Restore(w, old(state), name, pending, fault)
    {
      state := w(state);
      if fault == AtRestore {
        return Raised(Some(pending));
      }
      if pending !in state.private {
        return Absent;
      }
      if Has(state, name) {
        return Preserved(pending);
      }
      state := Rename(state, Private(pending), name);
      return Restored;
    }
  }
}
