/** A run of `_write_bytes_at` that loses the predecessor (src/sddgov/evidence.py:1103-1140): it reads
    one generation, links another aside, and then removes the first by name, because another writer
    renamed the first away and back in between. */
module LostPredecessor {
  import opened Common
  import opened Filesystem
  import opened OwnedRemoval
  import opened Publication
  import opened PredecessorLoss

  const NAME: string := "control"
  const BACKUP: string := "backup"
  const OLD: File := File(Regular, [1], 0)
  const OTHER: File := File(Regular, [2, 2], 0)
  const EXPECTED: Snap := Snap(0, 1, 0, Sha256(OLD.bytes))
  const REQUEST: Request := Request(NAME, [3], 0, Some(EXPECTED), false, 16)

  /** One file of the other writers, alone at its name. */
  const START: State :=
    State(map[NAME := 0], map[], map[0 := OLD], map[], 1, 0, k => k, 0, multiset{}, multiset{}, multiset{0}, multiset{})

  const STAGE: Tag := Tag(ControlStage, 0)
  const NEW: Tag := Tag(ControlNew, 1)
  const AWAY: Tag := Tag(ControlOld, 2)
  const STAGED: File := File(Regular, [3], 0)

  /** The other writer renames the file and puts another in its place just before the code links
      what is at the name aside, and renames it back just before the code vacates the name. */
  function Script(call: nat): seq<RivalStep> {
    if call == 13 then [Move(NAME, BACKUP), Put(NAME, OTHER)]
    else if call == 14 then [Move(BACKUP, NAME)]
    else []
  }

  function Rivalry(s: State): State {
    Scripted(Script, s)
  }

  // ---------------------------------------------------------------- steps nobody disturbs

  /** The others do nothing at these calls. */
  ghost predicate Still(w: Writers, from: nat, n: nat) {
    forall s: State {:trigger w(s)} :: from <= s.calls < from + n ==> w(s) == s.(calls := s.calls + 1)
  }

  lemma StillRivalry(from: nat, n: nat)
    requires from + n <= 13 || from >= 15
    ensures Still(Rivalry, from, n)
  {}

  lemma Alone(s: State, n: Name, i: Inode)
    requires Has(s, n) && At(s, n) == i
    requires forall m :: Has(s, m) && At(s, m) == i ==> m == n
    ensures NLink(s, i) == 1
  {
    match n
    case Public(text) =>
      forall t | t in Keys(s.public, i) ensures t == text { assert Has(s, Public(t)); }
      forall t | t in Keys(s.private, i) ensures false { assert Has(s, Private(t)); }
      assert Keys(s.public, i) == {text} && Keys(s.private, i) == {};
    case Private(tag) =>
      forall t | t in Keys(s.public, i) ensures false { assert Has(s, Public(t)); }
      forall t | t in Keys(s.private, i) ensures t == tag { assert Has(s, Private(t)); }
      assert Keys(s.public, i) == {} && Keys(s.private, i) == {tag};
  }

  lemma Reads(w: Writers, s: State, name: Name, max: nat)
    requires Still(w, s.calls, 3) && Has(s, name) && At(s, name) in s.files && NLink(s, At(s, name)) == 1
    requires var f := s.files[At(s, name)]; f.kind == Regular && |f.bytes| <= max
    ensures Read(w, s, name, max) == ReadStep(s.(calls := s.calls + 3), Some(Seen(At(s, name), s.files[At(s, name)])))
  {
    hide NLink;
    SameLinks(s, s.(calls := s.calls + 1));
    SameLinks(s, s.(calls := s.calls + 2));
    SameLinks(s, s.(calls := s.calls + 3));
  }

  /** Removing an owned name, from the state the reservation finds. */
  lemma Removes(w: Writers, s: State, s1: State, name: Name, o: Owner, tries: nat)
    requires s1 == w(Draw(s)) && s1.tokens == s.tokens && Still(w, s1.calls, 3) && tries > 0 && o.size.Some?
    requires Has(s1, name) && At(s1, name) in s1.files && Owns(o, At(s1, name), s1.files[At(s1, name)])
    requires !IsPending(name) && Tag(CleanupPending, s.tokens(s.drawn)) !in s1.private
    ensures
      var step := RemoveOwned(w, s, name, o, tries, NoFault);
      && step.r == Removed && SameRest(s1, step.s) && step.s.calls == s1.calls + 3
      && step.s.public == Unbind(s1, name).public && step.s.private == Unbind(s1, name).private
  {
    hide NLink, Owns;
    var p := Tag(CleanupPending, s.tokens(s.drawn));
    var s2 := Rename(s1, name, Private(p));
    assert Reserve(w, s, name, tries, NoFault) == ClaimStep(s2, Claimed(p));
    SameLinks(s2.(calls := s2.calls + 1), s2.(calls := s2.calls + 2));
    Looks(w, s2, p, o, At(s1, name));
    assert s2.private - {p} == Unbind(s1, name).private;
  }

  lemma Looks(w: Writers, s: State, p: Tag, o: Owner, i: Inode)
    requires Still(w, s.calls, 2) && p in s.private && s.private[p] == i && i in s.files && Owns(o, i, s.files[i]) && o.size.Some?
    ensures Inspect(w, s, p, o) == InspectStep(s.(calls := s.calls + 2), true)
  {
    hide NLink;
    SameLinks(s.(calls := s.calls + 1), s.(calls := s.calls + 2));
  }

  /** Everything but names, calls, change times and this process's ledger is the same. */
  ghost predicate SameRest(s: State, t: State) {
    && t.files == s.files && t.next == s.next && t.tokens == s.tokens && t.drawn == s.drawn
    && t.rivalMade == s.rivalMade && t.rivalGone == s.rivalGone
  }

  // ---------------------------------------------------------------- the run

  /** A state of the run; the old generation is as the others left it. */
  ghost predicate Shows(s: State, public: PublicMap, private: PrivateMap, calls: nat, drawn: nat) {
    && s.public == public && s.private == private && s.calls == calls && s.drawn == drawn
    && (forall k: nat :: s.tokens(k) == k)
    && s.rivalMade[0] == 1 && s.rivalGone[0] == 0
  }

  lemma StartIsValid()
    ensures Valid(START)
  {
    forall i: Inode ensures NLink(START, i) == (if i == 0 then 1 else 0) {
      assert Keys(START.private, i) == {};
      assert Keys(START.public, i) == if i == 0 then {NAME} else {};
    }
  }

  lemma Prechecked()
    ensures Precheck(Rivalry, START, REQUEST) == (START.(calls := 4), true)
  {
    hide NLink, Read, Rivalry;
    StillRivalry(0, 4);
    var s1 := START.(calls := 1);
    assert Rivalry(START) == s1;
    Alone(s1, Public(NAME), 0);
    Reads(Rivalry, s1, Public(NAME), MAX_CONTROL_BYTES);
  }

  ghost function AfterStage(): Progress {
    Progress(STAGE, NEW, AWAY, 1, false, true, false, true, None, false, None, false, 0, None)
  }

  lemma Staged()
    ensures
      var ph := Stage(Rivalry, START.(calls := 4), REQUEST);
      && ph.ok && ph.p == AfterStage()
      && Shows(ph.s, map[NAME := 0], map[NEW := 1], 13, 4)
      && ph.s.files == map[0 := OLD, 1 := STAGED] && ph.s.next == 2
  {
    hide NLink, StageClaim, Rivalry;
    StillRivalry(4, 2);
    var s1 := START.(calls := 5, drawn := 3);
    assert Rivalry(START.(calls := 4, drawn := 3)) == s1;
    var s2 := Create(s1, STAGE, [3], 0);
    var s3 := s2.(calls := 6);
    assert Rivalry(s2) == s3;
    var s4 := Link(s3, Private(STAGE), Private(NEW));
    var p := AfterStage().(stageLinked := true, verified := false);
    assert Stage(Rivalry, START.(calls := 4), REQUEST) == StageClaim(Rivalry, s4, p, REQUEST);
    StageClaimed(s4, p);
  }

  lemma StageClaimed(s: State, p: Progress)
    requires Shows(s, map[NAME := 0], map[STAGE := 1, NEW := 1], 6, 3)
    requires s.files == map[0 := OLD, 1 := STAGED] && s.next == 2
    requires p == AfterStage().(stageLinked := true, verified := false)
    ensures
      var ph := StageClaim(Rivalry, s, p, REQUEST);
      && ph.ok && ph.p == AfterStage()
      && Shows(ph.s, map[NAME := 0], map[NEW := 1], 13, 4)
      && ph.s.files == s.files && ph.s.next == 2
  {
    hide NLink, RemoveOwned, Read, Rivalry;
    StillRivalry(6, 7);
    var s1 := s.(calls := 7, drawn := 4);
    assert Rivalry(Draw(s)) == s1;
    Removes(Rivalry, s, s1, Private(STAGE), OwnStaged(p, REQUEST), 16);
    var t := RemoveOwned(Rivalry, s, Private(STAGE), OwnStaged(p, REQUEST), 16, NoFault).s;
    assert t.private == map[NEW := 1];
    Alone(t, Private(NEW), 1);
    Reads(Rivalry, t, Private(NEW), 1);
  }

  /** The first batch: the old generation goes to its backup name, another takes its place. */
  lemma Swapped(s: State)
    requires Shows(s, map[NAME := 0], map[NEW := 1], 13, 4) && s.files == map[0 := OLD, 1 := STAGED] && s.next == 2
    ensures
      var t := Rivalry(s);
      && Shows(t, map[BACKUP := 0, NAME := 2], map[NEW := 1], 14, 4)
      && t.files == map[0 := OLD, 1 := STAGED, 2 := OTHER] && t.next == 3
  {
    var a := Rival(s, Move(NAME, BACKUP));
    assert a.public == map[BACKUP := 0];
    var b := Rival(a, Put(NAME, OTHER));
    assert b.public == map[BACKUP := 0, NAME := 2];
    assert Script(13)[1..] == [Put(NAME, OTHER)] && [Put(NAME, OTHER)][1..] == [];
    assert Rivals(b, []) == b && Rivals(a, [Put(NAME, OTHER)]) == b;
  }

  /** The second: the old generation comes back over the other. */
  lemma SwappedBack(s: State)
    requires Shows(s, map[BACKUP := 0, NAME := 2], map[NEW := 1, AWAY := 2], 14, 5)
    ensures
      var t := Rivalry(s);
      && Shows(t, map[NAME := 0], map[NEW := 1, AWAY := 2], 15, 5) && t.files == s.files && t.next == s.next
      && t.tokens == s.tokens
  {
    var a := Rival(s, Move(BACKUP, NAME));
    assert a.public == map[NAME := 0];
    assert Script(14)[1..] == [];
    assert Rivals(a, []) == a;
  }

  ghost function AfterVacate(): Progress {
    AfterStage().(oldLinked := true, aside := Some(2), vacated := true, oldIdentity := Some(2))
  }

  lemma Vacated(s: State, p: Progress)
    requires Shows(s, map[BACKUP := 0, NAME := 2], map[NEW := 1, AWAY := 2], 14, 4)
    requires s.files == map[0 := OLD, 1 := STAGED, 2 := OTHER] && s.next == 3
    requires p == AfterStage().(oldLinked := true, aside := Some(2))
    ensures
      var ph := VacateOld(Rivalry, s, p, REQUEST);
      && !ph.ok && ph.p == AfterVacate()
      && Shows(ph.s, map[], map[NEW := 1, AWAY := 2], 24, 5) && ph.s.files == s.files
  {
    hide NLink, RemoveOwned, CheckOld, Rivalry;
    StillRivalry(15, 3);
    SwappedBack(Draw(s));
    var s1 := Rivalry(Draw(s));
    Removes(Rivalry, s, s1, Public(NAME), OwnExpected(EXPECTED), 16);
    var t := RemoveOwned(Rivalry, s, Public(NAME), OwnExpected(EXPECTED), 16, NoFault).s;
    assert t.public == map[];
    NotTheOne(t, p.(vacated := true));
  }

  /** What is aside is not the old generation, and is too large to be given back. */
  lemma NotTheOne(s: State, p: Progress)
    requires Shows(s, map[], map[NEW := 1, AWAY := 2], 18, 5) && s.files == map[0 := OLD, 1 := STAGED, 2 := OTHER]
    requires p == AfterVacate().(oldIdentity := None)
    ensures
      var ph := CheckOld(Rivalry, s, p, REQUEST);
      !ph.ok && ph.p == AfterVacate() && ph.s == s.(calls := 24)
  {
    hide NLink, Read, Rivalry;
    StillRivalry(18, 3);
    Alone(s, Private(AWAY), 2);
    Reads(Rivalry, s, Private(AWAY), MAX_CONTROL_BYTES);
    NotGivenBack(s.(calls := 21), AfterVacate());
  }

  lemma NotGivenBack(s: State, p: Progress)
    requires Shows(s, map[], map[NEW := 1, AWAY := 2], s.calls, 5) && s.files == map[0 := OLD, 1 := STAGED, 2 := OTHER]
    requires p == AfterVacate() && s.calls >= 15
    ensures RestoreOld(Rivalry, s, p, REQUEST) == OldStep(s.(calls := s.calls + 3), p, false)
  {
    hide NLink, Read, Rivalry;
    StillRivalry(s.calls, 3);
    Alone(s, Private(AWAY), 2);
    Reads(Rivalry, s, Private(AWAY), MAX_CONTROL_BYTES);
  }

  lemma ClaimedOther(s: State)
    requires Shows(s, map[NAME := 0], map[NEW := 1], 13, 4) && s.files == map[0 := OLD, 1 := STAGED] && s.next == 2
    ensures
      var ph := ClaimOld(Rivalry, s, AfterStage(), REQUEST);
      && !ph.ok && ph.p == AfterVacate()
      && Shows(ph.s, map[], map[NEW := 1, AWAY := 2], 24, 5)
      && ph.s.files == map[0 := OLD, 1 := STAGED, 2 := OTHER]
  {
    hide VacateOld, Rivalry;
    Swapped(s);
    var s1 := Rivalry(s);
    Vacated(Link(s1, Public(NAME), Private(AWAY)), AfterStage().(oldLinked := true, aside := Some(2)));
  }

  lemma CleanedUp(s: State)
    requires Shows(s, map[], map[NEW := 1, AWAY := 2], 24, 5) && s.files == map[0 := OLD, 1 := STAGED, 2 := OTHER]
    ensures
      var step := Cleanup(Rivalry, s, AfterVacate(), REQUEST);
      step.out == Failed(AfterVacate()) && Shows(step.s, map[], map[AWAY := 2], 31, 6)
  {
    hide NLink, RemoveOwned, RestoreOld, Rivalry;
    var p := AfterVacate();
    NotGivenBack(s, p);
    var s1 := s.(calls := 27);
    StillRivalry(27, 4);
    var s2 := s1.(calls := 28, drawn := 6);
    assert Rivalry(Draw(s1)) == s2;
    Removes(Rivalry, s1, s2, Private(NEW), OwnStaged(p, REQUEST), 16);
  }

  /** The old generation had one name, which the others left it, and after the failed write it has
      none; the generation linked aside is still held. */
  lemma PredecessorIsLost()
    ensures Lawful(Rivalry) && Valid(START) && NLink(START, 0) == 1
    ensures
      var step := WriteBytes(Rivalry, START, REQUEST);
      && step.out.Failed? && Lost(step.out.p, 0) && step.out.p.aside == Some(2)
      && NLink(step.s, 0) == 0 && step.s.rivalGone[0] == 0
      && step.s.public == map[] && step.s.private == map[AWAY := 2]
  {
    hide Precheck, Stage, ClaimOld, Cleanup, Lawful, Rivalry, Balances;
    ScriptIsLawful(Script, Rivalry) by {
      IsScripted();
    }
    StartIsValid();
    Alone(START, Public(NAME), 0);
    Prechecked();
    Staged();
    ClaimedOther(Stage(Rivalry, START.(calls := 4), REQUEST).s);
    CleanedUp(ClaimOld(Rivalry, Stage(Rivalry, START.(calls := 4), REQUEST).s, AfterStage(), REQUEST).s);
    var t := WriteBytes(Rivalry, START, REQUEST).s;
    assert Keys(t.public, 0) == {} && Keys(t.private, 0) == {};
  }

  /** It is the first of the two ways: another file was linked aside. */
  lemma AnotherWasLinked()
    ensures LinkedAnother(Rivalry, START, REQUEST)
  {
    hide Precheck, Stage, WriteBytes, Lawful, Rivalry, TakesPredecessor, GivesUp;
    PredecessorIsLost();
    LostIff(Rivalry, START, REQUEST);
    Prechecked();
    Staged();
    Swapped(Stage(Rivalry, START.(calls := 4), REQUEST).s);
  }

  lemma IsScripted()
    ensures forall s: State {:trigger Rivalry(s)} :: Rivalry(s) == Scripted(Script, s)
  {}
}
