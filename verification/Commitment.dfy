/** When a transaction commits (src/sddgov/evidence.py), and what a verification that passed has seen. */
module Commitment {
  import opened Common
  import opened Filesystem
  import opened OwnedRemoval
  import opened Publication
  import opened Transaction
  import opened AllOrNothing

  /** The name leads to the publication's own file, which has no other name and holds exactly its bytes. */
  ghost predicate Shows(t: State, pub: Pub) {
    && pub.q.text in t.public && t.public[pub.q.text] == pub.p.staged && NLink(t, pub.p.staged) == 1
    && pub.p.staged in t.files && t.files[pub.p.staged].kind == Regular && t.files[pub.p.staged].bytes == pub.q.bytes
  }

  // ---------------------------------------------------------------- what was seen, under every schedule

  /** The directory once the others have had this many turns. */
  function Waited(w: Writers, s: State, turns: nat): State {
    if turns == 0 then s else w(Waited(w, s, turns - 1))
  }

  lemma {:induction false} WaitedOn(w: Writers, s: State, a: nat, b: nat)
    ensures Waited(w, Waited(w, s, a), b) == Waited(w, s, a + b)
    decreases b
  {
    if b > 0 {
      WaitedOn(w, s, a, b - 1);
    }
  }

  lemma CheckSees(w: Writers, s: State, pub: Pub, struck: bool)
    requires Lawful(w) && Valid(s) && Check(w, s, pub, struck).ok
    ensures
      var t := Check(w, s, pub, struck).s;
      Valid(t) && t == Waited(w, s, 3) && Shows(t, pub)
  {
    hide Balances, NLink;
    ReadKeeps(w, s, Public(pub.q.text), MAX_CONTROL_BYTES);
    assert Waited(w, s, 1) == w(Waited(w, s, 0));
    assert Waited(w, s, 2) == w(Waited(w, s, 1));
    assert Waited(w, s, 3) == w(Waited(w, s, 2));
  }

  lemma {:induction false} CheckAllSees(w: Writers, s: State, pubs: seq<Pub>, struck: nat -> bool, k: nat, j: nat)
    requires Lawful(w) && Valid(s) && CheckAll(w, s, pubs, struck, k).ok && j < |pubs|
    ensures Shows(Waited(w, s, 3 * (j + 1)), pubs[j])
    decreases j
  {
    hide Check, Shows, Lawful, Valid;
    CheckSees(w, s, pubs[0], struck(k));
    var t := Check(w, s, pubs[0], struck(k)).s;
    if j > 0 {
      CheckAllSees(w, t, pubs[1..], struck, k + 1, j - 1);
      WaitedOn(w, s, 3, 3 * j);
    }
  }

  /** At some moment from `s` on, if this process only waits, the publication is shown. */
  ghost predicate WasSeen(w: Writers, s: State, pub: Pub) {
    exists turns: nat :: Shows(Waited(w, s, turns), pub)
  }

  /** Under every schedule of other writers: a transaction that commits had seen, at some moment of its
      end, each of its publications at its name, alone, with exactly its bytes. */
  lemma CommittedWasSeen(w: Writers, s: State, pubs: seq<Pub>, faults: Faults)
    requires Lawful(w) && Valid(s) && FinalizeAll(w, s, pubs, faults).committed
    ensures forall j :: 0 <= j < |pubs| ==> WasSeen(w, s, pubs[j])
  {
    hide CheckAll, DropAll, RollbackAll, Shows, Lawful, Valid;
    forall j | 0 <= j < |pubs|
      ensures WasSeen(w, s, pubs[j])
    {
      CheckAllSees(w, s, pubs, faults.check, 0, j);
    }
  }

  // ---------------------------------------------------------------- verifying, with no other writer

  predicate Short(pub: Pub) {
    |pub.q.bytes| <= MAX_CONTROL_BYTES
  }

  lemma QuietCheck(w: Writers, s: State, pub: Pub)
    requires Calm(w, s)
    ensures
      var step := Check(w, s, pub, false);
      && Calm(w, step.s) && Transaction.SameNames(s, step.s) && step.s.files == s.files && step.s.next == s.next
      && (step.ok <==> Shows(s, pub) && Short(pub))
  {
    hide Read, Calm, NLink;
    QuietRead(w, s, Public(pub.q.text), MAX_CONTROL_BYTES);
  }

  lemma SameShown(s: State, t: State, pub: Pub)
    requires Transaction.SameNames(s, t) && t.files == s.files
    ensures Shows(s, pub) <==> Shows(t, pub)
  {
    SameLinks(s, t);
  }

  lemma {:induction false} QuietCheckAll(w: Writers, s: State, pubs: seq<Pub>, struck: nat -> bool, k: nat)
    requires Calm(w, s) && forall i: nat :: k <= i < k + |pubs| ==> !struck(i)
    ensures CheckAll(w, s, pubs, struck, k).ok <==> forall j :: 0 <= j < |pubs| ==> Shows(s, pubs[j]) && Short(pubs[j])
    decreases |pubs|
  {
    hide Check, Shows, Calm;
    if pubs != [] {
      QuietCheck(w, s, pubs[0]);
      var t := Check(w, s, pubs[0], false).s;
      forall j | 0 <= j < |pubs|
        ensures Shows(s, pubs[j]) <==> Shows(t, pubs[j])
      {
        SameShown(s, t, pubs[j]);
      }
      QuietCheckAll(w, t, pubs[1..], struck, k + 1);
      ShownFromSecond(s, t, pubs);
    }
  }

  lemma ShownFromSecond(s: State, t: State, pubs: seq<Pub>)
    requires pubs != [] && forall j :: 0 <= j < |pubs| ==> (Shows(s, pubs[j]) <==> Shows(t, pubs[j]))
    ensures (forall j :: 0 <= j < |pubs| ==> Shows(s, pubs[j]) && Short(pubs[j])) <==>
            && Shows(s, pubs[0]) && Short(pubs[0])
            && forall j :: 0 <= j < |pubs[1..]| ==> Shows(t, pubs[1..][j]) && Short(pubs[1..][j])
  {
    hide Shows;
    if forall j :: 0 <= j < |pubs[1..]| ==> Shows(t, pubs[1..][j]) && Short(pubs[1..][j]) {
      forall j | 1 <= j < |pubs|
        ensures Shows(s, pubs[j]) && Short(pubs[j])
      {
        assert pubs[j] == pubs[1..][j - 1];
      }
    }
  }

  // ---------------------------------------------------------------- dropping the predecessors

  /** The predecessor a publication keeps, if it replaced one, is where it put it. */
  predicate Keeps(s: State, pub: Pub) {
    && IsControl(pub.p) && pub.q.tries > 0
    && (pub.q.expected.Some? ==>
          var e := pub.q.expected.value;
          && pub.p.oldLinked && pub.p.oldIdentity == Some(e.inode)
          && pub.p.old_ in s.private && s.private[pub.p.old_] == e.inode && Is(s, e.inode, e.size, e.digest))
  }

  function Old(pub: Pub): set<Tag> {
    if pub.q.expected.Some? then {pub.p.old_} else {}
  }

  function Olds(pubs: seq<Pub>): set<Tag> {
    if pubs == [] then {} else Old(pubs[0]) + Olds(pubs[1..])
  }

  predicate Apart(pubs: seq<Pub>) {
    forall j, k :: 0 <= j < k < |pubs| ==> Old(pubs[j]) !! Old(pubs[k])
  }

  lemma QuietDrop(w: Writers, s: State, pub: Pub)
    requires Calm(w, s) && Keeps(s, pub)
    ensures
      var step := DropPredecessor(w, s, pub, NoFault);
      && step.ok && Calm(w, step.s) && step.s.files == s.files && step.s.next == s.next
      && step.s.public == s.public && step.s.private == s.private - Old(pub)
  {
    hide RemoveOwned, Calm;
    if pub.q.expected.Some? {
      var e := pub.q.expected.value;
      QuietRemoval(w, s, Private(pub.p.old_), Owner(Regular, e.inode, Some(e.size), Some(e.digest)), pub.q.tries);
    } else {
      assert s.private - {} == s.private;
    }
  }

  lemma {:induction false} QuietDropAll(w: Writers, s: State, pubs: seq<Pub>, faults: nat -> Fault, k: nat)
    requires Calm(w, s) && Apart(pubs) && (forall j :: 0 <= j < |pubs| ==> Keeps(s, pubs[j]))
    requires forall i: nat :: k <= i < k + |pubs| ==> faults(i) == NoFault
    ensures
      var step := DropAll(w, s, pubs, faults, k);
      step.ok && step.s.public == s.public && step.s.private == s.private - Olds(pubs) && step.s.files == s.files
    decreases |pubs|
  {
    hide DropPredecessor, Calm;
    if pubs == [] {
      assert s.private - {} == s.private;
    } else {
      QuietDrop(w, s, pubs[0]);
      var t := DropPredecessor(w, s, pubs[0], NoFault).s;
      forall j | 0 <= j < |pubs[1..]|
        ensures Keeps(t, pubs[1..][j])
      {
        assert pubs[1..][j] == pubs[j + 1] && Keeps(s, pubs[j + 1]);
        assert Old(pubs[0]) !! Old(pubs[j + 1]);
      }
      QuietDropAll(w, t, pubs[1..], faults, k + 1);
      assert s.private - Old(pubs[0]) - Olds(pubs[1..]) == s.private - Olds(pubs);
    }
  }

  lemma EarlierLegs(states: seq<State>, pubs: seq<Pub>)
    requires pubs != [] && Run(states, pubs)
    ensures
      var n := |pubs| - 1;
      && |states| == n + 2 && Run(states[..n + 1], pubs[..n])
      && Took(states[n], states[n + 1], pubs[n]) && FilesKept(states[n], states[n + 1])
  {
    hide Took, FilesKept;
    var n := |pubs| - 1;
    var before, earlier := states[..n + 1], pubs[..n];
    assert Leg(states, pubs, n);
    forall k | 0 <= k < |earlier|
      ensures Leg(before, earlier, k)
    {
      assert Leg(states, pubs, k);
    }
  }

  /** A publication's predecessor stays where it is while the next name is published. */
  lemma NextKeeps(s: State, t: State, last: Pub, pub: Pub)
    requires Took(s, t, last) && FilesKept(s, t) && Keeps(s, pub)
    ensures Keeps(t, pub) && Old(pub) !! Old(last)
  {
    hide NLink;
  }

  lemma TookKeeps(s: State, t: State, last: Pub)
    requires Took(s, t, last)
    ensures Keeps(t, last) && t.private - Old(last) == s.private
    ensures forall tag :: tag in Old(last) ==> tag !in s.private && tag in t.private
    ensures forall tag :: tag in s.private ==> tag in t.private
  {
    hide NLink;
  }

  /** After a run every predecessor is under a private name of its own, and without these names the
      private names are those the transaction found. */
  lemma {:induction false} RunKeeps(states: seq<State>, pubs: seq<Pub>)
    requires Run(states, pubs)
    ensures Apart(pubs) && forall j :: 0 <= j < |pubs| ==> Keeps(states[|pubs|], pubs[j])
    ensures forall tag :: tag in Olds(pubs) ==> tag !in states[0].private && tag in states[|pubs|].private
    ensures states[|pubs|].private - Olds(pubs) == states[0].private
    decreases |pubs|
  {
    hide Leg, Took, FilesKept, Keeps, Old, NLink;
    if pubs == [] {
      assert states[0].private - {} == states[0].private;
    } else {
      var n := |pubs| - 1;
      var earlier, last := pubs[..n], pubs[n];
      EarlierLegs(states, pubs);
      RunKeeps(states[..n + 1], earlier);
      TookKeeps(states[n], states[n + 1], last);
      forall j | 0 <= j < n
        ensures Keeps(states[n + 1], pubs[j]) && Old(pubs[j]) !! Old(last)
      {
        assert earlier[j] == pubs[j];
        NextKeeps(states[n], states[n + 1], last, pubs[j]);
      }
      forall j, k | 0 <= j < k < |pubs|
        ensures Old(pubs[j]) !! Old(pubs[k])
      {
        assert k < n ==> Old(earlier[j]) !! Old(earlier[k]);
      }
      LastOld(pubs);
      WithoutBoth(states[0].private, states[n].private, states[n + 1].private, Olds(earlier), Old(last));
    }
  }

  lemma WithoutBoth(first: PrivateMap, middle: PrivateMap, end: PrivateMap, olds: set<Tag>, old_: set<Tag>)
    requires middle - olds == first && end - old_ == middle && forall tag :: tag in old_ ==> tag !in middle
    requires forall tag :: tag in olds ==> tag !in first && tag in middle
    ensures end - (olds + old_) == first && forall tag :: tag in olds + old_ ==> tag !in first
  {
    assert end - (olds + old_) == (end - old_) - olds;
  }

  lemma {:induction false} LastOld(pubs: seq<Pub>)
    requires pubs != []
    ensures Olds(pubs) == Olds(pubs[..|pubs| - 1]) + Old(pubs[|pubs| - 1])
    decreases |pubs|
  {
    hide Old;
    var n := |pubs| - 1;
    if n == 0 {
      assert Olds(pubs[1..]) == {} && Olds(pubs[..n]) == {};
    } else {
      LastOld(pubs[1..]);
      assert pubs[1..][..n - 1] == pubs[..n][1..];
    }
  }

  // ---------------------------------------------------------------- when a transaction commits

  /** No error strikes any of this many verifications and drops. */
  ghost predicate Unstruck(faults: Faults, count: nat) {
    forall k :: 0 <= k < count ==> !faults.check(k) && faults.drop(k) == NoFault
  }

  lemma KeepsStand(t: State, c: State, pub: Pub)
    requires Stands(t, c) && Keeps(t, pub)
    ensures Keeps(c, pub)
  {}

  /** With no other writer and no fault a transaction, of any number of creations and replacements,
      commits exactly if each publication is still at its name, alone, with its bytes, and those are no
      more than a verification reads. Then every new generation is public and no predecessor is left
      under a private name; otherwise every name is as before. */
  lemma FinalizeCommitsIff(w: Writers, states: seq<State>, pubs: seq<Pub>, c: State, faults: Faults)
    requires Calm(w, c) && Run(states, pubs) && Stands(states[|pubs|], c) && Unstruck(faults, |pubs|)
    ensures
      var end := FinalizeAll(w, c, pubs, faults);
      && (end.committed <==> forall k :: 0 <= k < |pubs| ==> Shows(c, pubs[k]) && |pubs[k].q.bytes| <= MAX_CONTROL_BYTES)
      && (end.committed ==> end.s.public == c.public && end.s.private == states[0].private && end.s.files == c.files)
      && (!end.committed ==> Transaction.SameNames(states[0], end.s))
  {
    hide CheckAll, DropAll, RollbackAll, Took, Calm, Shows, Keeps;
    QuietCheckAll(w, c, pubs, faults.check, 0);
    CheckAllKeeps(w, c, pubs, faults.check, 0);
    var checked := CheckAll(w, c, pubs, faults.check, 0);
    if checked.ok {
      RunKeeps(states, pubs);
      forall j | 0 <= j < |pubs|
        ensures Keeps(checked.s, pubs[j])
      {
        KeepsStand(states[|pubs|], checked.s, pubs[j]);
      }
      QuietDropAll(w, checked.s, pubs, faults.drop, 0);
    } else {
      RollbackRestores(w, states, pubs, checked.s);
    }
  }

  // ---------------------------------------------------------------- publications on names of their own

  predicate DistinctNames(qs: seq<Request>) {
    forall j, k :: 0 <= j < k < |qs| ==> qs[j].text != qs[k].text
  }

  /** A file with one link at a name keeps it, and gets no other, while another name is published. */
  lemma StaysAlone(s: State, t: State, pub: Pub, text: string, i: Inode)
    requires Took(s, t, pub) && text in s.public && s.public[text] == i && text != pub.q.text
    requires NLink(s, i) == 1 || NLink(t, i) == 1
    ensures NLink(s, i) == NLink(t, i)
  {
    var new_, name := pub.p.staged, pub.q.text;
    assert new_ != i by {
      if new_ == i {
        TwoNames(t, text, name);
      }
    }
    if pub.q.expected.Some? && s.public[name] == i {
      if NLink(s, i) == 1 {
        TwoNames(s, text, name);
      } else {
        NamedTwice(t, text, pub.p.old_);
      }
    }
    assert Keys(t.public, i) == Keys(s.public, i);
    assert Keys(t.private, i) == Keys(s.private, i);
  }

  lemma TwoNames(s: State, a: string, b: string)
    requires a in s.public && b in s.public && a != b && s.public[a] == s.public[b]
    ensures NLink(s, s.public[a]) != 1
  {
    var keys := Keys(s.public, s.public[a]);
    assert {a, b} <= keys;
    assert |keys| == |keys - {a, b}| + |{a, b}|;
  }

  lemma NamedTwice(s: State, text: string, tag: Tag)
    requires text in s.public && tag in s.private && s.public[text] == s.private[tag]
    ensures NLink(s, s.public[text]) != 1
  {
    assert text in Keys(s.public, s.public[text]) && tag in Keys(s.private, s.public[text]);
  }

  lemma TookShows(s: State, t: State, pub: Pub)
    requires Took(s, t, pub)
    ensures Shows(t, pub)
  {
    hide NLink;
  }

  lemma StillShown(s: State, t: State, pub: Pub, other: Pub)
    requires Took(s, t, pub) && FilesKept(s, t) && Shows(s, other) && other.q.text != pub.q.text
    ensures Shows(t, other)
  {
    hide NLink;
    StaysAlone(s, t, pub, other.q.text, other.p.staged);
  }

  lemma {:induction false} RunShows(states: seq<State>, pubs: seq<Pub>, k: nat, end: nat)
    requires Run(states, pubs) && k < end <= |pubs|
    requires forall j :: 0 <= j < |pubs| && j != k ==> pubs[j].q.text != pubs[k].q.text
    ensures Shows(states[end], pubs[k])
    decreases end
  {
    hide Took, Shows, FilesKept;
    assert Leg(states, pubs, end - 1);
    if end == k + 1 {
      TookShows(states[k], states[end], pubs[k]);
    } else {
      RunShows(states, pubs, k, end - 1);
      StillShown(states[end - 1], states[end], pubs[end - 1], pubs[k]);
    }
  }

  lemma ShownStands(t: State, c: State, pub: Pub)
    requires Stands(t, c) && Shows(t, pub)
    ensures Shows(c, pub)
  {
    SameLinks(t, c);
  }

  /** Dropping private names takes no link from a file that has its only name in public. */
  lemma ShownWithout(c: State, t: State, tags: set<Tag>, pub: Pub)
    requires t.public == c.public && t.private == c.private - tags && t.files == c.files && Shows(c, pub)
    ensures Shows(t, pub)
  {
    var i := pub.p.staged;
    assert pub.q.text in Keys(t.public, i);
    assert |Keys(c.private, i)| == 0;
    assert Keys(t.private, i) == {};
  }

  // ---------------------------------------------------------------- whole transactions

  /** The directory is as the request expects it: the name is vacant, or leads to exactly the
      predecessor that was read. */
  ghost predicate Fits(s: State, q: Request) {
    match q.expected
    case None => q.text !in s.public
    case Some(_) => !q.mustNotExist && Awaits(s, q)
  }

  lemma PrecheckIff(w: Writers, s: State, q: Request)
    requires Calm(w, s)
    ensures q.expected.Some? ==> (Precheck(w, s, q).1 <==> Fits(s, q))
    ensures q.expected.None? && q.text !in s.public ==> Precheck(w, s, q).1
  {
    hide Read, Calm, NLink;
    QuietStep(w, s);
    SameLinks(s, w(s));
    QuietRead(w, w(s), Public(q.text), MAX_CONTROL_BYTES);
  }

  /** With no other writer a write publishes exactly if the directory is as it expects. */
  lemma PublishesIff(w: Writers, s: State, q: Request)
    requires Calm(w, s) && q.tries > 0
    ensures WriteBytes(w, s, q).out.Published? <==> Fits(s, q)
  {
    hide Precheck, WriteBytes, Calm, Awaits;
    PrecheckIff(w, s, q);
    QuietWrite(w, s, q);
  }

  /** What another name's publication leaves to be expected. */
  lemma FitsStays(s: State, t: State, pub: Pub, q: Request)
    requires Valid(s) && Took(s, t, pub) && FilesKept(s, t) && q.text != pub.q.text
    ensures Fits(s, q) <==> Fits(t, q)
  {
    hide NLink, Balances;
    if q.expected.Some? && q.text in s.public && s.public[q.text] == q.expected.value.inode {
      if NLink(s, s.public[q.text]) == 1 || NLink(t, s.public[q.text]) == 1 {
        StaysAlone(s, t, pub, q.text, s.public[q.text]);
      }
    }
  }

  /** A list of writes on names of their own publishes throughout exactly if the directory is as every
      one of them expects. */
  lemma {:induction false} PublishAllIff(w: Writers, s: State, qs: seq<Request>)
    requires Calm(w, s) && DistinctNames(qs) && forall k :: 0 <= k < |qs| ==> qs[k].tries > 0
    ensures PublishAll(w, s, qs).ok <==> forall k :: 0 <= k < |qs| ==> Fits(s, qs[k])
    decreases |qs|
  {
    hide WriteBytes, Calm, Took, FilesKept, Fits;
    if qs != [] {
      var step := WriteBytes(w, s, qs[0]);
      PublishesIff(w, s, qs[0]);
      if step.out.Published? {
        QuietWriteTook(w, s, qs[0]);
        CalmFacts(w, s);
        forall k | 1 <= k < |qs|
          ensures Fits(s, qs[k]) <==> Fits(step.s, qs[k])
        {
          FitsStays(s, step.s, Pub(step.out.p, qs[0]), qs[k]);
        }
        PublishAllIff(w, step.s, qs[1..]);
        FitsFromSecond(s, step.s, qs);
      }
    }
  }

  lemma FitsFromSecond(s: State, t: State, qs: seq<Request>)
    requires qs != [] && Fits(s, qs[0]) && forall k :: 1 <= k < |qs| ==> (Fits(s, qs[k]) <==> Fits(t, qs[k]))
    ensures (forall k :: 0 <= k < |qs| ==> Fits(s, qs[k])) <==> forall k :: 0 <= k < |qs[1..]| ==> Fits(t, qs[1..][k])
  {
    hide Fits;
    if forall k :: 0 <= k < |qs[1..]| ==> Fits(t, qs[1..][k]) {
      forall k | 1 <= k < |qs|
        ensures Fits(s, qs[k])
      {
        assert qs[k] == qs[1..][k - 1];
      }
    }
  }

  lemma {:induction false} PublishedRequests(w: Writers, s: State, qs: seq<Request>)
    requires PublishAll(w, s, qs).ok
    ensures |PublishAll(w, s, qs).pubs| == |qs| && forall k :: 0 <= k < |qs| ==> PublishAll(w, s, qs).pubs[k].q == qs[k]
    decreases |qs|
  {
    hide WriteBytes;
    if qs != [] {
      PublishedRequests(w, WriteBytes(w, s, qs[0]).s, qs[1..]);
    }
  }

  /** The name leads to a file that has no other name and holds exactly these bytes. */
  ghost predicate Delivered(t: State, text: string, bytes: Bytes) {
    && text in t.public && t.public[text] in t.files && NLink(t, t.public[text]) == 1
    && t.files[t.public[text]].kind == Regular && t.files[t.public[text]].bytes == bytes
  }

  lemma ShownIsDelivered(t: State, pub: Pub)
    requires Shows(t, pub)
    ensures Delivered(t, pub.q.text, pub.q.bytes)
  {}

  lemma {:induction false} OverlayElsewhere(public: PublicMap, pubs: seq<Pub>, text: string)
    requires forall k :: 0 <= k < |pubs| ==> pubs[k].q.text != text
    ensures text in Overlay(public, pubs) <==> text in public
    ensures text in public ==> Overlay(public, pubs)[text] == public[text]
    decreases |pubs|
  {
    if pubs != [] {
      OverlayElsewhere(public[pubs[0].q.text := pubs[0].p.staged], pubs[1..], text);
    }
  }

  /** What a committed transaction has done: every write is delivered, every other public name and every
      private name is as before. */
  ghost predicate Done(s: State, t: State, qs: seq<Request>) {
    && (forall k :: 0 <= k < |qs| ==> Delivered(t, qs[k].text, qs[k].bytes))
    && (forall text :: (forall k :: 0 <= k < |qs| ==> qs[k].text != text) ==>
          && (text in t.public <==> text in s.public) && (text in s.public ==> t.public[text] == s.public[text]))
    && t.private == s.private
  }

  /** From the first write to the end of the transaction, with no other writer and no fault: writes on
      names of their own commit exactly if the directory is as every one of them expects and none is
      longer than a verification reads; and then they have done exactly what they say, and nothing is
      left of the predecessors. Otherwise every name is as before. */
  lemma TransactionCommitsIff(w: Writers, s: State, qs: seq<Request>, faults: Faults)
    requires Calm(w, s) && DistinctNames(qs) && (forall k :: 0 <= k < |qs| ==> qs[k].tries > 0) && Unstruck(faults, |qs|)
    ensures
      var end := Transact(w, s, qs, faults);
      && (end.committed <==> forall k :: 0 <= k < |qs| ==> Fits(s, qs[k]) && |qs[k].bytes| <= MAX_CONTROL_BYTES)
      && (end.committed ==> Done(s, end.s, qs))
      && (!end.committed ==> Transaction.SameNames(s, end.s))
  {
    hide PublishAll, FinalizeAll, RollbackAll, Calm, Took, Fits, Shows, Done;
    PublishAllIff(w, s, qs);
    PublishAllRuns(w, s, qs);
    var b := PublishAll(w, s, qs);
    if b.ok {
      PublishedRequests(w, s, qs);
      FinalizeCommitsIff(w, b.states, b.pubs, b.end, faults);
      var end := FinalizeAll(w, b.end, b.pubs, faults);
      forall k | 0 <= k < |qs|
        ensures Shows(b.end, b.pubs[k])
      {
        assert forall j :: 0 <= j < |qs| && j != k ==> b.pubs[j].q.text != b.pubs[k].q.text;
        RunShows(b.states, b.pubs, k, |b.pubs|);
        ShownStands(b.states[|b.pubs|], b.end, b.pubs[k]);
      }
      if end.committed {
        CommittedIsDone(s, qs, b, end.s);
      }
    } else {
      RollbackRestores(w, b.states, b.pubs, b.end);
    }
  }

  lemma CommittedIsDone(s: State, qs: seq<Request>, b: Batch, t: State)
    requires |b.pubs| == |qs| && |b.states| == |qs| + 1 && b.states[0] == s && Run(b.states, b.pubs)
    requires b.end.public == Overlay(s.public, b.pubs) && Stands(b.states[|qs|], b.end)
    requires forall k :: 0 <= k < |qs| ==> b.pubs[k].q == qs[k] && Shows(b.end, b.pubs[k])
    requires t.public == b.end.public && t.private == s.private && t.files == b.end.files
    ensures Done(s, t, qs)
  {
    hide Took, Shows, Delivered;
    RunKeeps(b.states, b.pubs);
    forall k | 0 <= k < |qs|
      ensures Delivered(t, qs[k].text, qs[k].bytes)
    {
      ShownWithout(b.end, t, Olds(b.pubs), b.pubs[k]);
      ShownIsDelivered(t, b.pubs[k]);
    }
    forall text | forall k :: 0 <= k < |qs| ==> qs[k].text != text
      ensures (text in t.public <==> text in s.public) && (text in s.public ==> t.public[text] == s.public[text])
    {
      OverlayElsewhere(s.public, b.pubs, text);
    }
  }
}
