/** The queue of bounded owner actions (src/sddgov/governance.py): a list of rows, each re-validated
    at every load, enqueued at most once per identifier and resolved at most once. Times are
    seconds; an envelope stands for the signed resolution it carries. */
module ExternalActions {
  import opened Common
  import opened Operations
  import NonceLedger

  datatype Status = Pending | Completed | Cancelled | Expired

  datatype Identity = Identity(
    actionId: string, summary: string, risk: string, owner: string, actionClass: string, scope: string)

  datatype Row = Row(
    id: Identity, status: Status, createdAt: int, expiresAt: int, requestSha: string,
    resolvedAt: Option<int>, receipt: Option<string>, evidence: Option<string>, envelope: Option<string>)

  /** The canonical digest of a request. */
  type RequestHash = Identity -> string

  predicate IsTerminal(s: Status) {
    s == Completed || s == Cancelled
  }

  predicate IdentityOk(id: Identity) {
    && !Blank(id.actionId) && !Blank(id.summary) && !Blank(id.owner) && !Blank(id.scope)
    && id.risk in {"L1", "L2", "L3"} && id.actionClass in {"operational_action", "necessary_uat"}
  }

  /** _validate_external_action_row */
  predicate RowOk(hash: RequestHash, r: Row) {
    && IdentityOk(r.id)
    && r.createdAt < r.expiresAt
    && r.requestSha == hash(r.id)
    && match r.status
       case Pending => r.resolvedAt.None? && r.receipt.None? && r.evidence.None? && r.envelope.None?
       case Expired => r.resolvedAt.Some? && r.receipt.None? && r.evidence.None? && r.envelope.None?
       case _ =>
         && r.resolvedAt.Some? && r.envelope.Some?
         && r.receipt.Some? && NonceLedger.IsHash(r.receipt.value)
         && r.evidence.Some? && NonceLedger.IsHash(r.evidence.value)
  }

  predicate AllOk(hash: RequestHash, rows: seq<Row>) {
    forall k :: 0 <= k < |rows| ==> RowOk(hash, rows[k])
  }

  /** The row with this identifier; none if there is none or more than one. */
  datatype Found = Nothing | At(k: nat) | Several

  function Find(rows: seq<Row>, actionId: string): (f: Found)
    ensures f.At? ==> f.k < |rows| && rows[f.k].id.actionId == actionId
    ensures f.Nothing? ==> forall k :: 0 <= k < |rows| ==> rows[k].id.actionId != actionId
    ensures f.At? ==> forall k :: 0 <= k < |rows| && rows[k].id.actionId == actionId ==> k == f.k
    ensures f.Several? ==> exists j, k :: 0 <= j < k < |rows| && rows[j].id.actionId == actionId == rows[k].id.actionId
  {
    if rows == [] then Nothing else
      var n := |rows| - 1;
      var before := Find(rows[..n], actionId);
      assert forall k :: 0 <= k < n ==> rows[k] == rows[..n][k];
      if rows[n].id.actionId != actionId then before
      else if before.Nothing? then At(n) else Several
  }

  // ---------------------------------------------------------------- the two operations

  datatype Answer = Refused | Created(row: Row) | Existing(row: Row) | Resolved(row: Row, changed: bool)
  datatype Outcome = Outcome(rows: seq<Row>, answer: Answer)

  const MAX_TTL_MINUTES: int := 10080

  function NewRow(hash: RequestHash, id: Identity, ttl: int, now: int): Row {
    Row(id, Pending, now, now + 60 * ttl, hash(id), None, None, None, None)
  }

  function Expire(r: Row, now: int): Row {
    r.(status := Expired, resolvedAt := Some(now), receipt := None, evidence := None, envelope := None)
  }

  /** _enqueue_external_action_unlocked */
  function Enqueue(hash: RequestHash, rows: seq<Row>, id: Identity, ttl: int, now: int): Outcome {
    if !IdentityOk(id) || !(1 <= ttl <= MAX_TTL_MINUTES) || !AllOk(hash, rows) then Outcome(rows, Refused)
    else match Find(rows, id.actionId)
      case Several => Outcome(rows, Refused)
      case Nothing => Outcome(rows + [NewRow(hash, id, ttl, now)], Created(NewRow(hash, id, ttl, now)))
      case At(k) =>
        if rows[k].requestSha != hash(id) then Outcome(rows, Refused)
        else if rows[k].status == Pending && rows[k].expiresAt <= now
        then Outcome(rows[k := Expire(rows[k], now)], Existing(Expire(rows[k], now)))
        else Outcome(rows, Existing(rows[k]))
  }

  datatype Resolution = Resolution(
    actionId: string, actionClass: string, owner: string, scope: string, requestSha: string, status: Status,
    resolvedAt: int, receipt: string, evidence: string, envelope: string)

  function Settle(r: Row, s: Resolution): Row {
    r.(status := s.status, resolvedAt := Some(s.resolvedAt), receipt := Some(s.receipt),
       evidence := Some(s.evidence), envelope := Some(s.envelope))
  }

  predicate ResolutionOk(s: Resolution) {
    && IsTerminal(s.status)
    && !Blank(s.actionId) && !Blank(s.actionClass) && !Blank(s.owner) && !Blank(s.scope)
    && NonceLedger.IsHash(s.requestSha) && NonceLedger.IsHash(s.receipt) && NonceLedger.IsHash(s.evidence)
  }

  /** Is the resolution about this very action? */
  predicate Addresses(s: Resolution, r: Row) {
    r.id.actionClass == s.actionClass && r.id.owner == s.owner && r.id.scope == s.scope && r.requestSha == s.requestSha
  }

  /** resolve_external_action */
  function Resolve(hash: RequestHash, rows: seq<Row>, s: Resolution): Outcome {
    if !ResolutionOk(s) || !AllOk(hash, rows) || !Find(rows, s.actionId).At? then Outcome(rows, Refused)
    else
      var k := Find(rows, s.actionId).k;
      var r := rows[k];
      if !Addresses(s, r) then Outcome(rows, Refused)
      else if r.status == s.status then
        if r.receipt == Some(s.receipt) then Outcome(rows, Resolved(r, false)) else Outcome(rows, Refused)
      else if r.status != Pending || s.resolvedAt < r.createdAt || s.resolvedAt > r.expiresAt then Outcome(rows, Refused)
      else Outcome(rows[k := Settle(r, s)], Resolved(Settle(r, s), true))
  }

  // ---------------------------------------------------------------- whole runs

  datatype Op = DoEnqueue(id: Identity, ttl: int, now: int) | DoResolve(s: Resolution)

  function Apply(hash: RequestHash, rows: seq<Row>, op: Op): Outcome {
    match op
    case DoEnqueue(id, ttl, now) => Enqueue(hash, rows, id, ttl, now)
    case DoResolve(s) => Resolve(hash, rows, s)
  }

  function Run(hash: RequestHash, rows: seq<Row>, ops: seq<Op>): seq<Row>
    decreases |ops|
  {
    if ops == [] then rows else Run(hash, Apply(hash, rows, ops[0]).rows, ops[1..])
  }

  predicate UniqueIds(rows: seq<Row>) {
    forall j, k :: 0 <= j < k < |rows| ==> rows[j].id.actionId != rows[k].id.actionId
  }

  /** A completed or cancelled row carries proof dated within the action's lifetime; an expired row
      is dated after it. */
  predicate ProvedInTime(r: Row) {
    && (IsTerminal(r.status) ==>
          && r.resolvedAt.Some? && r.createdAt <= r.resolvedAt.value <= r.expiresAt
          && r.receipt.Some? && r.evidence.Some? && r.envelope.Some?)
    && (r.status == Expired ==> r.resolvedAt.Some? && r.resolvedAt.value >= r.expiresAt)
  }

  ghost predicate Sound(hash: RequestHash, rows: seq<Row>) {
    AllOk(hash, rows) && UniqueIds(rows) && forall k :: 0 <= k < |rows| ==> ProvedInTime(rows[k])
  }

  /** What may happen to a row: nothing, or one move from pending; identity and dates never change. */
  predicate Moves(a: Row, b: Row) {
    && b.id == a.id && b.createdAt == a.createdAt && b.expiresAt == a.expiresAt && b.requestSha == a.requestSha
    && (b == a || (a.status == Pending && b.status != Pending))
  }

  /** Rows are only added at the end and moved in place. */
  ghost predicate Extends(a: seq<Row>, b: seq<Row>) {
    |a| <= |b| && forall k :: 0 <= k < |a| ==> Moves(a[k], b[k])
  }

  lemma ExtendsTrans(a: seq<Row>, b: seq<Row>, c: seq<Row>)
    requires Extends(a, b) && Extends(b, c)
    ensures Extends(a, c)
  {
    forall k | 0 <= k < |a| ensures Moves(a[k], c[k]) {
      assert Moves(a[k], b[k]) && Moves(b[k], c[k]);
    }
  }

  lemma ReplaceKeeps(hash: RequestHash, rows: seq<Row>, k: nat, r: Row)
    requires Sound(hash, rows) && k < |rows| && RowOk(hash, r) && ProvedInTime(r) && Moves(rows[k], r)
    ensures Sound(hash, rows[k := r]) && Extends(rows, rows[k := r])
  {
    hide RowOk, ProvedInTime;
  }

  lemma AppendKeeps(hash: RequestHash, rows: seq<Row>, r: Row)
    requires Sound(hash, rows) && RowOk(hash, r) && ProvedInTime(r)
    requires forall k :: 0 <= k < |rows| ==> rows[k].id.actionId != r.id.actionId
    ensures Sound(hash, rows + [r]) && Extends(rows, rows + [r])
  {
    hide RowOk, ProvedInTime;
  }

  lemma SameExtends(rows: seq<Row>)
    ensures Extends(rows, rows)
  {}

  /** Each operation keeps the queue sound, changes no identity, and moves rows only off pending. */
  lemma ApplyKeeps(hash: RequestHash, rows: seq<Row>, op: Op)
    requires Sound(hash, rows)
    ensures Sound(hash, Apply(hash, rows, op).rows) && Extends(rows, Apply(hash, rows, op).rows)
  {
    hide Sound, Extends, Blank, NonceLedger.IsHash;
    SameExtends(rows);
    match op
    case DoEnqueue(id, ttl, now) =>
      if Enqueue(hash, rows, id, ttl, now).answer.Created? {
        AppendKeeps(hash, rows, NewRow(hash, id, ttl, now));
      } else if Find(rows, id.actionId).At? {
        var k := Find(rows, id.actionId).k;
        if Enqueue(hash, rows, id, ttl, now).rows != rows {
          assert RowOk(hash, rows[k]);
          ReplaceKeeps(hash, rows, k, Expire(rows[k], now));
        }
      }
    case DoResolve(s) =>
      if Resolve(hash, rows, s).rows != rows {
        var k := Find(rows, s.actionId).k;
        assert RowOk(hash, rows[k]);
        ReplaceKeeps(hash, rows, k, Settle(rows[k], s));
      }
  }

  /** Over every run, with any clock: identifiers stay unique, every row passes the validator on the
      next load, terminal rows carry proof dated within the action's lifetime; and from any point of
      the run to any later one the only moves are from pending to a final status. */
  lemma {:induction false} EveryRunIsSound(hash: RequestHash, rows: seq<Row>, ops: seq<Op>)
    requires Sound(hash, rows)
    ensures Sound(hash, Run(hash, rows, ops)) && Extends(rows, Run(hash, rows, ops))
    decreases |ops|
  {
    hide Sound, Extends, Apply;
    SameExtends(rows);
    if ops != [] {
      ApplyKeeps(hash, rows, ops[0]);
      var next := Apply(hash, rows, ops[0]).rows;
      EveryRunIsSound(hash, next, ops[1..]);
      ExtendsTrans(rows, next, Run(hash, next, ops[1..]));
    }
  }

  lemma EmptyIsSound(hash: RequestHash)
    ensures Sound(hash, [])
  {}

  /** Each identifier is created at most once: after a creation, whatever runs in between, a second
      enqueue of the same identifier never creates. */
  lemma CreatedOnce(hash: RequestHash, rows: seq<Row>, id: Identity, ttl: int, now: int, ops: seq<Op>, again: Identity, ttl2: int, later: int)
    requires Sound(hash, rows) && Enqueue(hash, rows, id, ttl, now).answer.Created? && again.actionId == id.actionId
    ensures !Enqueue(hash, Run(hash, Enqueue(hash, rows, id, ttl, now).rows, ops), again, ttl2, later).answer.Created?
  {
    hide Sound, Blank, RowOk, IdentityOk;
    ApplyKeeps(hash, rows, DoEnqueue(id, ttl, now));
    var after := Enqueue(hash, rows, id, ttl, now).rows;
    EveryRunIsSound(hash, after, ops);
    var end := Run(hash, after, ops);
    assert Moves(after[|rows|], end[|rows|]);
    assert end[|rows|].id.actionId == again.actionId;
  }

  /** Asking again never returns a stale row: a pending row in the answer has not expired, and the
      answer is about the very request made. */
  lemma ExistingIsCurrent(hash: RequestHash, rows: seq<Row>, id: Identity, ttl: int, now: int)
    requires Sound(hash, rows) && Enqueue(hash, rows, id, ttl, now).answer.Existing?
    ensures
      var row := Enqueue(hash, rows, id, ttl, now).answer.row;
      && (row.status == Pending ==> now < row.expiresAt)
      && row.id.actionId == id.actionId && hash(row.id) == hash(id)
      && row in Enqueue(hash, rows, id, ttl, now).rows
  {
    hide Blank, IdentityOk;
    var k := Find(rows, id.actionId).k;
    assert RowOk(hash, rows[k]);
    assert Enqueue(hash, rows, id, ttl, now).rows[k] == Enqueue(hash, rows, id, ttl, now).answer.row;
  }

  /** A row just created is pending and not expired. */
  lemma CreatedIsCurrent(hash: RequestHash, rows: seq<Row>, id: Identity, ttl: int, now: int)
    requires Enqueue(hash, rows, id, ttl, now).answer.Created?
    ensures
      var out := Enqueue(hash, rows, id, ttl, now);
      && out.answer.row in out.rows && out.answer.row.id == id && out.answer.row.status == Pending
      && now < out.answer.row.expiresAt
  {
    hide Blank, IdentityOk, RowOk;
    var out := Enqueue(hash, rows, id, ttl, now);
    assert out.rows[|rows|] == out.answer.row;
  }

  /** A final row is final: no later run changes anything in it. */
  lemma FinalIsFinal(hash: RequestHash, rows: seq<Row>, ops: seq<Op>, k: nat)
    requires Sound(hash, rows) && k < |rows| && rows[k].status != Pending
    ensures |rows| <= |Run(hash, rows, ops)| && Run(hash, rows, ops)[k] == rows[k]
  {
    hide Sound;
    EveryRunIsSound(hash, rows, ops);
    assert Moves(rows[k], Run(hash, rows, ops)[k]);
  }

  /** Resolving again with the same receipt changes nothing and says so. */
  lemma ResolveIsIdempotent(hash: RequestHash, rows: seq<Row>, s: Resolution)
    requires Sound(hash, rows) && Resolve(hash, rows, s).answer.Resolved?
    ensures
      var once := Resolve(hash, rows, s).rows;
      Resolve(hash, once, s) == Outcome(once, Resolved(Resolve(hash, rows, s).answer.row, false))
  {
    hide Blank, NonceLedger.IsHash, RowOk, ProvedInTime;
    ApplyKeeps(hash, rows, DoResolve(s));
    var once := Resolve(hash, rows, s).rows;
    var k := Find(rows, s.actionId).k;
    assert once[k].id.actionId == s.actionId;
    assert Find(once, s.actionId) == At(k) by {
      assert !Find(once, s.actionId).Nothing?;
      assert !Find(once, s.actionId).Several?;
    }
  }

  // ---------------------------------------------------------------- the store

  class ExternalActionStore {
    var rows: seq<Row>
    const hash: RequestHash

    constructor (hash: RequestHash)
      ensures rows == [] && this.hash == hash
    {
      this.rows, this.hash := [], hash;
    }

    /** Load and validate every row, and look for one identifier. */
    method Load(actionId: string) returns (ok: bool, found: Found)
      ensures ok == AllOk(hash, rows)
      ensures ok ==> found == Find(rows, actionId)
    {
      hide RowOk;
      found := Nothing;
      var k := 0;
      while k < |rows|
        invariant 0 <= k <= |rows|
        invariant AllOk(hash, rows[..k]) && found == Find(rows[..k], actionId)
      {
        assert rows[..k + 1][..k] == rows[..k] && rows[..k + 1] == rows[..k] + [rows[k]];
        if !RowOk(hash, rows[k]) {
          return false, found;
        }
        if rows[k].id.actionId == actionId {
          found := if found.Nothing? then At(k) else Several;
        }
        k := k + 1;
      }
      assert rows[..k] == rows;
      ok := true;
    }

    method EnqueueAction(id: Identity, ttl: int, now: int) returns (answer: Answer)
      modifies this`rows
      ensures Outcome(rows, answer) == Enqueue(hash, old(rows), id, ttl, now)
    {
      hide RowOk, IdentityOk;
      if !IdentityOk(id) || !(1 <= ttl <= MAX_TTL_MINUTES) {
        return Refused;
      }
      var ok, found := Load(id.actionId);
      if !ok || found.Several? {
        return Refused;
      }
      if found.At? {
        var row := rows[found.k];
        if row.requestSha != hash(id) {
          return Refused;
        }
        if row.status == Pending && row.expiresAt <= now {
          row := Expire(row, now);
          rows := rows[found.k := row];
        }
        return Existing(row);
      }
      var row := NewRow(hash, id, ttl, now);
      rows := rows + [row];
      return Created(row);
    }

    method ResolveAction(s: Resolution) returns (answer: Answer)
      modifies this`rows
      ensures Outcome(rows, answer) == Resolve(hash, old(rows), s)
    {
      hide RowOk, ResolutionOk;
      if !ResolutionOk(s) {
        return Refused;
      }
      var ok, found := Load(s.actionId);
      if !ok || !found.At? {
        return Refused;
      }
      var row := rows[found.k];
      if !Addresses(s, row) {
        return Refused;
      }
      if row.status == s.status {
        return if row.receipt == Some(s.receipt) then Resolved(row, false) else Refused;
      }
      if row.status != Pending || s.resolvedAt < row.createdAt || s.resolvedAt > row.expiresAt {
        return Refused;
      }
      row := Settle(row, s);
      rows := rows[found.k := row];
      return Resolved(row, true);
    }
  }
}
