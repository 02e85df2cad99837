/** What asking for an owner action and resolving one do (src/sddgov/governance.py), for every queue and
    every request, said of the rows' fields. */
module ActionQueue {
  import opened Common
  import opened Operations
  import opened ExternalActions
  import opened Receipts
  import opened BrokerFields
  import NonceLedger

  /** The printing of 32 bytes. */
  ghost predicate IsDigest(h: string) {
    exists bytes :: |bytes| == 32 && AreBytes(bytes) && HexOf(bytes) == h
  }

  /** An action that can be asked for. */
  predicate Proper(id: Identity) {
    && Said(id.actionId) && Said(id.summary) && Said(id.owner) && Said(id.scope)
    && id.risk in {"L1", "L2", "L3"} && id.actionClass in {"operational_action", "necessary_uat"}
  }

  /** A row the store may hold: about a proper action and under its digest, expiring after it was created;
      without any proof while pending, dated when expired, and with every proof when completed or cancelled. */
  ghost predicate Stands(hash: RequestHash, r: Row) {
    && Proper(r.id) && r.createdAt < r.expiresAt && r.requestSha == hash(r.id)
    && (r.status == Pending ==> r.resolvedAt == None)
    && (r.status != Pending ==> r.resolvedAt != None)
    && (r.status in {Pending, Expired} ==> r.receipt == None && r.evidence == None && r.envelope == None)
    && (r.status in {Completed, Cancelled} ==>
          && r.receipt.Some? && IsDigest(r.receipt.value) && r.evidence.Some? && IsDigest(r.evidence.value) && r.envelope.Some?)
  }

  lemma ProperIff(id: Identity)
    ensures Proper(id) <==> IdentityOk(id)
  {
    hide Said, Blank;
    SaidIff(id.actionId);
    SaidIff(id.summary);
    SaidIff(id.owner);
    SaidIff(id.scope);
  }

  lemma DigestIff(h: string)
    ensures IsDigest(h) <==> NonceLedger.IsHash(h)
  {
    HashIff(h);
  }

  lemma StandsIff(hash: RequestHash, r: Row)
    ensures Stands(hash, r) <==> RowOk(hash, r)
  {
    hide Proper, IdentityOk, IsDigest, NonceLedger.IsHash;
    ProperIff(r.id);
    if r.receipt.Some? {
      DigestIff(r.receipt.value);
    }
    if r.evidence.Some? {
      DigestIff(r.evidence.value);
    }
  }

  ghost predicate AllStand(hash: RequestHash, rows: seq<Row>) {
    forall row :: row in rows ==> Stands(hash, row)
  }

  lemma AllStandIff(hash: RequestHash, rows: seq<Row>)
    ensures AllStand(hash, rows) <==> AllOk(hash, rows)
  {
    hide Stands, RowOk;
    forall row: Row ensures Stands(hash, row) <==> RowOk(hash, row) {
      StandsIff(hash, row);
    }
    assert forall k :: 0 <= k < |rows| ==> rows[k] in rows;
  }

  /** No row is about the identifier. */
  predicate Unknown(rows: seq<Row>, actionId: string) {
    forall row :: row in rows ==> row.id.actionId != actionId
  }

  /** Row `k` is, and no other. */
  predicate Only(rows: seq<Row>, actionId: string, k: nat) {
    k < |rows| && forall j :: 0 <= j < |rows| ==> (rows[j].id.actionId == actionId <==> j == k)
  }

  lemma FindIff(rows: seq<Row>, actionId: string, k: nat)
    ensures Find(rows, actionId).Nothing? <==> Unknown(rows, actionId)
    ensures Find(rows, actionId) == At(k) <==> Only(rows, actionId, k)
  {
    var f := Find(rows, actionId);
    assert forall j :: 0 <= j < |rows| ==> rows[j] in rows;
    if Unknown(rows, actionId) {
      assert !f.At? && !f.Several?;
    }
  }

  // ---------------------------------------------------------------- asking

  /** The request is one the queue takes at all. */
  ghost predicate Takes(hash: RequestHash, rows: seq<Row>, id: Identity, ttl: int) {
    Proper(id) && 1 <= ttl <= 7 * 24 * 60 && AllStand(hash, rows)
  }

  /** A row newly asked for: pending, from now for the minutes given. */
  predicate IsNew(hash: RequestHash, row: Row, id: Identity, ttl: int, now: int) {
    && row.id == id && row.status == Pending && row.createdAt == now && row.expiresAt == now + ttl * 60
    && row.requestSha == hash(id) && row.resolvedAt == None && row.receipt == None && row.evidence == None && row.envelope == None
  }

  /** The row as it is answered: expired now if it was pending and its time is over, as it is otherwise. */
  predicate IsCurrent(before: Row, after: Row, now: int) {
    if before.status == Pending && before.expiresAt <= now then
      && after.status == Expired && after.resolvedAt == Some(now)
      && after.receipt == None && after.evidence == None && after.envelope == None
      && after.id == before.id && after.createdAt == before.createdAt && after.expiresAt == before.expiresAt
      && after.requestSha == before.requestSha
    else after == before
  }

  /** An action nobody asked for is appended and answered as created; the one row about it, if it is about
      this very action, is answered as it stands now; in every other case nothing changes and nothing is
      answered. */
  lemma EnqueueIff(hash: RequestHash, rows: seq<Row>, id: Identity, ttl: int, now: int)
    ensures
      var out := Enqueue(hash, rows, id, ttl, now);
      && (out.answer.Created? <==> Takes(hash, rows, id, ttl) && Unknown(rows, id.actionId))
      && (out.answer.Created? ==> out.rows == rows + [out.answer.row] && IsNew(hash, out.answer.row, id, ttl, now))
      && (out.answer.Existing? <==>
            Takes(hash, rows, id, ttl) && exists k: nat :: Only(rows, id.actionId, k) && rows[k].requestSha == hash(id))
      && (out.answer.Existing? ==>
            exists k: nat :: Only(rows, id.actionId, k) && IsCurrent(rows[k], out.answer.row, now) && out.rows == rows[k := out.answer.row])
      && (!out.answer.Created? && !out.answer.Existing? ==> out == Outcome(rows, Refused))
  {
    hide AllStand, AllOk, Proper, IdentityOk, Unknown, Only;
    ProperIff(id);
    AllStandIff(hash, rows);
    var f := Find(rows, id.actionId);
    FindIff(rows, id.actionId, 0);
    forall k: nat ensures f == At(k) <==> Only(rows, id.actionId, k) {
      FindIff(rows, id.actionId, k);
    }
    if f.At? {
      assert Only(rows, id.actionId, f.k);
      assert rows[f.k := rows[f.k]] == rows;
    }
  }

  // ---------------------------------------------------------------- resolving

  /** A resolution that can be applied at all. */
  ghost predicate Whole(s: Resolution) {
    && s.status in {Completed, Cancelled}
    && Said(s.actionId) && Said(s.actionClass) && Said(s.owner) && Said(s.scope)
    && IsDigest(s.requestSha) && IsDigest(s.receipt) && IsDigest(s.evidence)
  }

  lemma WholeIff(s: Resolution)
    ensures Whole(s) <==> ResolutionOk(s)
  {
    hide Said, Blank, IsDigest, NonceLedger.IsHash;
    SaidIff(s.actionId);
    SaidIff(s.actionClass);
    SaidIff(s.owner);
    SaidIff(s.scope);
    DigestIff(s.requestSha);
    DigestIff(s.receipt);
    DigestIff(s.evidence);
  }

  /** The one row about the action is the one the resolution is about: same class, owner, scope and digest. */
  ghost predicate Meant(hash: RequestHash, rows: seq<Row>, s: Resolution, k: nat) {
    && Whole(s) && AllStand(hash, rows) && Only(rows, s.actionId, k)
    && rows[k].id.actionClass == s.actionClass && rows[k].id.owner == s.owner && rows[k].id.scope == s.scope
    && rows[k].requestSha == s.requestSha
  }

  /** A resolution of a pending row dated within the row's lifetime settles it with exactly that proof; one
      that is already recorded, with the same receipt, is answered again without a change; anything else is
      refused and changes nothing. */
  lemma ResolveIff(hash: RequestHash, rows: seq<Row>, s: Resolution)
    ensures
      var out := Resolve(hash, rows, s);
      && (out.answer.Resolved? && out.answer.changed <==>
            exists k: nat :: Meant(hash, rows, s, k) && rows[k].status == Pending && rows[k].createdAt <= s.resolvedAt <= rows[k].expiresAt)
      && (out.answer.Resolved? && out.answer.changed ==>
            exists k: nat ::
              && Meant(hash, rows, s, k) && out.rows == rows[k := out.answer.row]
              && out.answer.row == Row(rows[k].id, s.status, rows[k].createdAt, rows[k].expiresAt, rows[k].requestSha,
                                       Some(s.resolvedAt), Some(s.receipt), Some(s.evidence), Some(s.envelope)))
      && (out.answer.Resolved? && !out.answer.changed <==>
            exists k: nat :: Meant(hash, rows, s, k) && rows[k].status == s.status && rows[k].receipt == Some(s.receipt))
      && (!(out.answer.Resolved? && out.answer.changed) ==> out.rows == rows)
      && (out.answer.Refused? || out.answer.Resolved?)
  {
    hide AllStand, AllOk, Whole, ResolutionOk, Unknown, Only;
    WholeIff(s);
    AllStandIff(hash, rows);
    var f := Find(rows, s.actionId);
    forall k: nat ensures f == At(k) <==> Only(rows, s.actionId, k) {
      FindIff(rows, s.actionId, k);
    }
    if ResolutionOk(s) {
      StatusOf(s);
    }
    if f.At? && Addresses(s, rows[f.k]) && ResolutionOk(s) && AllOk(hash, rows) {
      assert Meant(hash, rows, s, f.k);
    }
  }

  lemma StatusOf(s: Resolution)
    requires Whole(s) || ResolutionOk(s)
    ensures s.status != Pending
  {}
}
