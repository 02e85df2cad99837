/** One directory as the descriptor-relative helpers see it: names, inodes, link counts and
    change times, shared with other writers.

    Other writers are a function `w` from states to states, applied before each system call of
    the modelled code; the state counts the calls, so `w` may do something different at each of
    them. Every theorem is stated for an arbitrary lawful `w`, hence for every interleaving.
    Lawful writers create, replace, delete, rename and link public names; they never touch the
    random private names and never rewrite an inode in place. A file they keep in another directory
    is under a public name this process does not use. `ScriptIsLawful` shows that every script of
    such steps is lawful. */
module Filesystem {

  import opened Common

  type Inode = nat

  datatype Kind = Regular | Socket | Other
  datatype File = File(kind: Kind, bytes: Bytes, mtime: int)

  datatype Role = CleanupPending | ControlStage | ControlNew | ControlOld
  /** A random private name. */
  datatype Tag = Tag(role: Role, token: nat)
  datatype Name = Public(text: string) | Private(tag: Tag)

  type PublicMap = map<string, Inode>
  type PrivateMap = map<Tag, Inode>

  /** `made` and `gone` are the link ledger of this process, `rivalMade` and `rivalGone` that of
      the other writers; `tokens` are the random names this process draws. */
  datatype State = State(
    public: PublicMap,
    private: PrivateMap,
    files: map<Inode, File>,
    ctime: map<Inode, nat>,
    next: Inode,
    calls: nat,
    tokens: nat -> nat,
    drawn: nat,
    made: multiset<Inode>,
    gone: multiset<Inode>,
    rivalMade: multiset<Inode>,
    rivalGone: multiset<Inode>)

  type Writers = State -> State

  // ---------------------------------------------------------------- names and links

  predicate Has(s: State, n: Name) {
    match n
    case Public(text) => text in s.public
    case Private(tag) => tag in s.private
  }

  function At(s: State, n: Name): Inode
    requires Has(s, n)
  {
    match n
    case Public(text) => s.public[text]
    case Private(tag) => s.private[tag]
  }

  function Bind(s: State, n: Name, i: Inode): State {
    match n
    case Public(text) => s.(public := s.public[text := i])
    case Private(tag) => s.(private := s.private[tag := i])
  }

  function Unbind(s: State, n: Name): State {
    match n
    case Public(text) => s.(public := s.public - {text})
    case Private(tag) => s.(private := s.private - {tag})
  }

  function Keys<K>(m: map<K, Inode>, i: Inode): set<K> {
    set k | k in m && m[k] == i
  }

  /** st_nlink */
  function NLink(s: State, i: Inode): nat {
    |Keys(s.public, i)| + |Keys(s.private, i)|
  }

  function Count(here: bool): nat {
    if here then 1 else 0
  }

  lemma KeysAdd<K>(m: map<K, Inode>, k: K, i: Inode, j: Inode)
    requires k !in m
    ensures |Keys(m[k := i], j)| == |Keys(m, j)| + Count(i == j)
  {
    if i == j {
      assert Keys(m[k := i], j) == Keys(m, j) + {k};
    } else {
      assert Keys(m[k := i], j) == Keys(m, j);
    }
  }

  lemma KeysDrop<K>(m: map<K, Inode>, k: K, j: Inode)
    requires k in m
    ensures |Keys(m, j)| == |Keys(m - {k}, j)| + Count(m[k] == j)
  {
    assert (m - {k})[k := m[k]] == m;
    KeysAdd(m - {k}, k, m[k], j);
  }

  lemma NLinkPositive(s: State, i: Inode)
    ensures NLink(s, i) > 0 <==> exists n :: Has(s, n) && At(s, n) == i
  {
    if n :| Has(s, n) && At(s, n) == i {
      match n
      case Public(text) => assert text in Keys(s.public, i);
      case Private(tag) => assert tag in Keys(s.private, i);
    }
    if Keys(s.public, i) != {} {
      var text :| text in Keys(s.public, i);
      assert At(s, Public(text)) == i;
    } else if Keys(s.private, i) != {} {
      var tag :| tag in Keys(s.private, i);
      assert At(s, Private(tag)) == i;
    }
  }

  // ---------------------------------------------------------------- valid states

  /** Links made less links removed is the link count, inode by inode. */
  ghost predicate Balances(s: State) {
    forall i: Inode {:trigger NLink(s, i)} ::
      NLink(s, i) + s.gone[i] + s.rivalGone[i] == s.made[i] + s.rivalMade[i]
  }

  ghost predicate Valid(s: State) {
    && (forall t :: t in s.public ==> s.public[t] in s.files)
    && (forall t :: t in s.private ==> s.private[t] in s.files)
    && (forall i :: i in s.files ==> i < s.next)
    && Balances(s)
  }

  function Touch(s: State, i: Inode): map<Inode, nat> {
    s.ctime[i := Ctime(s, i) + 1]
  }

  function Ctime(s: State, i: Inode): nat {
    if i in s.ctime then s.ctime[i] else 0
  }

  /** The tokens still to be drawn are distinct and name nothing in the directory. */
  ghost predicate FreshTokens(s: State) {
    && (forall a: nat, b: nat :: s.tokens(a) == s.tokens(b) ==> a == b)
    && (forall k: nat, r: Role :: s.drawn <= k ==> Tag(r, s.tokens(k)) !in s.private)
  }

  // ---------------------------------------------------------------- system calls of this process

  /** renameat2(RENAME_NOREPLACE) */
  function Rename(s: State, source: Name, target: Name): State
    requires Has(s, source)
  {
    Bind(Unbind(s, source), target, At(s, source)).(ctime := Touch(s, At(s, source)))
  }

  function Link(s: State, source: Name, target: Name): State
    requires Has(s, source)
  {
    Bind(s, target, At(s, source)).(
      ctime := Touch(s, At(s, source)), made := s.made + multiset{At(s, source)})
  }

  function Unlink(s: State, name: Name): State
    requires Has(s, name)
  {
    Unbind(s, name).(ctime := Touch(s, At(s, name)), gone := s.gone + multiset{At(s, name)})
  }

  /** openat(O_CREAT | O_EXCL), write and fsync of a private file nobody else can name */
  function Create(s: State, tag: Tag, bytes: Bytes, mtime: int): State {
    s.(private := s.private[tag := s.next], files := s.files[s.next := File(Regular, bytes, mtime)],
       next := s.next + 1, made := s.made + multiset{s.next})
  }

  function Draw(s: State): State {
    s.(drawn := s.drawn + 1)
  }

  lemma BindCounts(s: State, n: Name, i: Inode, j: Inode)
    requires !Has(s, n)
    ensures NLink(Bind(s, n, i), j) == NLink(s, j) + Count(i == j)
  {
    match n
    case Public(text) => KeysAdd(s.public, text, i, j);
    case Private(tag) => KeysAdd(s.private, tag, i, j);
  }

  lemma UnbindCounts(s: State, n: Name, j: Inode)
    requires Has(s, n)
    ensures NLink(s, j) == NLink(Unbind(s, n), j) + Count(At(s, n) == j)
  {
    match n
    case Public(text) => KeysDrop(s.public, text, j);
    case Private(tag) => KeysDrop(s.private, tag, j);
  }

  /** NLink looks at the two maps only. */
  lemma SameLinks(a: State, b: State)
    requires a.public == b.public && a.private == b.private
    ensures forall j: Inode :: NLink(a, j) == NLink(b, j)
  {}

  lemma RenameKeeps(s: State, source: Name, target: Name)
    requires Valid(s) && Has(s, source) && !Has(s, target)
    ensures Valid(Rename(s, source, target))
  {
    var t := Rename(s, source, target);
    forall j: Inode
      ensures NLink(t, j) == NLink(s, j)
    {
      UnbindCounts(s, source, j);
      BindCounts(Unbind(s, source), target, At(s, source), j);
      SameLinks(t, Bind(Unbind(s, source), target, At(s, source)));
    }
  }

  lemma LinkKeeps(s: State, source: Name, target: Name)
    requires Valid(s) && Has(s, source) && !Has(s, target)
    ensures Valid(Link(s, source, target))
  {
    var t := Link(s, source, target);
    forall j: Inode
      ensures NLink(t, j) == NLink(s, j) + Count(At(s, source) == j)
    {
      BindCounts(s, target, At(s, source), j);
      SameLinks(t, Bind(s, target, At(s, source)));
    }
  }

  lemma UnlinkKeeps(s: State, name: Name)
    requires Valid(s) && Has(s, name)
    ensures Valid(Unlink(s, name))
  {
    var t := Unlink(s, name);
    forall j: Inode
      ensures NLink(t, j) + Count(At(s, name) == j) == NLink(s, j)
    {
      UnbindCounts(s, name, j);
      SameLinks(t, Unbind(s, name));
    }
  }

  lemma CreateKeeps(s: State, tag: Tag, bytes: Bytes, mtime: int)
    requires Valid(s) && tag !in s.private
    ensures Valid(Create(s, tag, bytes, mtime))
  {
    var t := Create(s, tag, bytes, mtime);
    forall j: Inode
      ensures NLink(t, j) == NLink(s, j) + Count(s.next == j)
    {
      BindCounts(s, Private(tag), s.next, j);
      SameLinks(t, Bind(s, Private(tag), s.next));
    }
  }

  // ---------------------------------------------------------------- what other writers may do

  /** Every public name leads to one of these inodes, or to one made since `next`. */
  ghost predicate Within(inodes: set<Inode>, next: Inode, public: PublicMap) {
    forall t :: t in public ==> public[t] >= next || public[t] in inodes
  }

  /** A public name names an inode that was public, whatever its name then, or a new one. */
  ghost predicate PublicEvolves(before: PublicMap, next: Inode, after: PublicMap) {
    Within(before.Values, next, after)
  }

  ghost predicate FilesKept(a: State, b: State) {
    && a.next <= b.next
    && forall i :: i in a.files ==> i in b.files && b.files[i] == a.files[i]
  }

  /** What a stretch of a run may change outside the private names and the ledger. */
  ghost predicate Evolves(a: State, b: State) {
    && FilesKept(a, b)
    && PublicEvolves(a.public, a.next, b.public)
    && a.tokens == b.tokens && a.drawn <= b.drawn
  }

  lemma EvolvesTrans(a: State, b: State, c: State)
    requires Evolves(a, b) && Evolves(b, c)
    ensures Evolves(a, c)
  {}

  /** What other writers may do between two system calls of this process. */
  ghost predicate Interfered(a: State, b: State) {
    && Valid(b) && Evolves(a, b)
    && b.private == a.private && b.made == a.made && b.gone == a.gone && b.drawn == a.drawn
  }

  ghost predicate Lawful(w: Writers) {
    forall s: State {:trigger w(s)} :: Valid(s) ==> Interfered(s, w(s))
  }

  /** No other writer at all. */
  ghost predicate Quiet(w: Writers) {
    forall s: State {:trigger w(s)} :: w(s) == s.(calls := s.calls + 1)
  }

  /** Others that bind a name to new files only: no rename, no link of a file that is there. */
  ghost predicate FreshOnly(w: Writers) {
    forall s: State {:trigger w(s)} :: Valid(s) ==>
      forall t :: t in w(s).public ==> w(s).public[t] >= s.next || (t in s.public && w(s).public[t] == s.public[t])
  }

  /** Others that create and replace but never delete. */
  ghost predicate ReplaceOnly(w: Writers) {
    forall s: State {:trigger w(s)} :: s.public.Keys <= w(s).public.Keys
  }

  // ---------------------------------------------------------------- scripts of other writers

  /** One step of another writer: create or replace a public name with a new file, delete it, rename
      it, replacing what is at the target, or give its file a second name. */
  datatype RivalStep =
    | Put(text: string, file: File)
    | Delete(text: string)
    | Move(text: string, target: string)
    | Alias(text: string, target: string)

  function RivalDelete(s: State, text: string): State {
    if text !in s.public then s else
      s.(public := s.public - {text}, ctime := Touch(s, s.public[text]),
         rivalGone := s.rivalGone + multiset{s.public[text]})
  }

  function RivalCreate(s: State, text: string, file: File): State {
    s.(public := s.public[text := s.next], files := s.files[s.next := file], next := s.next + 1,
       rivalMade := s.rivalMade + multiset{s.next})
  }

  /** os.replace, which does nothing between two names of one file */
  function RivalMove(s: State, text: string, target: string): State {
    if text !in s.public || (target in s.public && s.public[target] == s.public[text]) then s
    else Rename(RivalDelete(s, target), Public(text), Public(target))
  }

  /** os.link, which refuses a target that exists */
  function RivalAlias(s: State, text: string, target: string): State {
    if text !in s.public || target in s.public then s else
      s.(public := s.public[target := s.public[text]], ctime := Touch(s, s.public[text]),
         rivalMade := s.rivalMade + multiset{s.public[text]})
  }

  function Rival(s: State, step: RivalStep): State {
    match step
    case Put(text, file) => RivalCreate(RivalDelete(s, text), text, file)
    case Delete(text) => RivalDelete(s, text)
    case Move(text, target) => RivalMove(s, text, target)
    case Alias(text, target) => RivalAlias(s, text, target)
  }

  function Rivals(s: State, batch: seq<RivalStep>): State
    decreases |batch|
  {
    if batch == [] then s else Rivals(Rival(s, batch[0]), batch[1..])
  }

  lemma RivalDeleteKeeps(s: State, text: string)
    requires Valid(s)
    ensures Interfered(s, RivalDelete(s, text))
  {
    var t := RivalDelete(s, text);
    if text in s.public {
      forall j: Inode
        ensures NLink(t, j) + Count(s.public[text] == j) == NLink(s, j)
      {
        UnbindCounts(s, Public(text), j);
        SameLinks(t, Unbind(s, Public(text)));
      }
    }
  }

  lemma RivalCreateKeeps(s: State, text: string, file: File)
    requires Valid(s) && text !in s.public
    ensures Interfered(s, RivalCreate(s, text, file))
  {
    var t := RivalCreate(s, text, file);
    forall j: Inode
      ensures NLink(t, j) == NLink(s, j) + Count(s.next == j)
    {
      BindCounts(s, Public(text), s.next, j);
      SameLinks(t, Bind(s, Public(text), s.next));
    }
  }

  lemma RivalMoveKeeps(s: State, text: string, target: string)
    requires Valid(s)
    ensures Interfered(s, RivalMove(s, text, target))
  {
    if text in s.public && !(target in s.public && s.public[target] == s.public[text]) {
      var d := RivalDelete(s, target);
      RivalDeleteKeeps(s, target);
      RenameKeeps(d, Public(text), Public(target));
    }
  }

  lemma RivalAliasKeeps(s: State, text: string, target: string)
    requires Valid(s)
    ensures Interfered(s, RivalAlias(s, text, target))
  {
    if text in s.public && target !in s.public {
      var t := RivalAlias(s, text, target);
      forall j: Inode
        ensures NLink(t, j) == NLink(s, j) + Count(s.public[text] == j)
      {
        BindCounts(s, Public(target), s.public[text], j);
        SameLinks(t, Bind(s, Public(target), s.public[text]));
      }
    }
  }

  lemma RivalKeeps(s: State, step: RivalStep)
    requires Valid(s)
    ensures Interfered(s, Rival(s, step))
  {
    match step
    case Put(text, file) =>
      var d := RivalDelete(s, text);
      RivalDeleteKeeps(s, text);
      RivalCreateKeeps(d, text, file);
      EvolvesTrans(s, d, Rival(s, step));
    case Delete(text) => RivalDeleteKeeps(s, text);
    case Move(text, target) => RivalMoveKeeps(s, text, target);
    case Alias(text, target) => RivalAliasKeeps(s, text, target);
  }

  lemma {:induction false} RivalsKeep(s: State, batch: seq<RivalStep>)
    requires Valid(s)
    ensures Interfered(s, Rivals(s, batch))
    decreases |batch|
  {
    hide Rival, Balances;
    if batch != [] {
      RivalKeeps(s, batch[0]);
      RivalsKeep(Rival(s, batch[0]), batch[1..]);
      EvolvesTrans(s, Rival(s, batch[0]), Rivals(s, batch));
    }
  }

  function Scripted(script: nat -> seq<RivalStep>, s: State): State {
    Rivals(s, script(s.calls)).(calls := s.calls + 1)
  }

  lemma ScriptedKeeps(script: nat -> seq<RivalStep>, s: State)
    requires Valid(s)
    ensures Interfered(s, Scripted(script, s))
  {
    var t := Rivals(s, script(s.calls));
    RivalsKeep(s, script(s.calls));
    SameLinks(t, Scripted(script, s));
  }

  /** Any script of creations, replacements, deletions, renames and links, one batch per system call,
      is lawful. */
  lemma ScriptIsLawful(script: nat -> seq<RivalStep>, w: Writers)
    requires forall s: State {:trigger w(s)} :: w(s) == Scripted(script, s)
    ensures Lawful(w)
  {
    forall s: State | Valid(s)
      ensures Interfered(s, w(s))
    {
      ScriptedKeeps(script, s);
    }
  }

  /** The point of the ledger: when this process has removed no more links of an inode than it
      made itself, an inode the others still keep linked has a name. */
  lemma StandingGenerationIsLinked(s: State, i: Inode)
    requires Valid(s)
    requires s.gone[i] <= s.made[i]
    requires s.rivalGone[i] < s.rivalMade[i]
    ensures exists n :: Has(s, n) && At(s, n) == i
  {
    NLinkPositive(s, i);
  }
}
