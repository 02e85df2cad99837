/** SSH wire framing (section 5 of RFC 4251) and the identity answer of an SSH agent, as
    src/sddgov/owner_approval.py reads them: a response is accepted exactly when it is the byte-exact
    encoding of a bounded list in which the expected key occurs once. */
module SshFraming {
  import opened Common

  const MAX_AGENT_MESSAGE_BYTES: nat := 1024 * 1024
  const MAX_IDENTITIES: nat := 128
  const IDENTITIES_ANSWER: byte := 12
  const AGENT_FAILURE: byte := 5

  // ---------------------------------------------------------------- strings

  function U32(n: nat): (b: Bytes)
    requires n < 0x1_0000_0000
    ensures |b| == 4
  {
    var high := n / 256;
    var higher := high / 256;
    [(higher / 256) as byte, (higher % 256) as byte, (high % 256) as byte, (n % 256) as byte]
  }

  function ReadU32(b: Bytes): (n: nat)
    requires |b| == 4
    ensures n < 0x1_0000_0000
  {
    ((b[0] as int * 256 + b[1] as int) * 256 + b[2] as int) * 256 + b[3] as int
  }

  lemma U32RoundTrip(n: nat)
    requires n < 0x1_0000_0000
    ensures ReadU32(U32(n)) == n
  {}

  lemma U32Exact(b: Bytes)
    requires |b| == 4
    ensures U32(ReadU32(b)) == b
  {
    var n := ReadU32(b);
    assert n / 256 == (b[0] as int * 256 + b[1] as int) * 256 + b[2] as int;
    assert n / 256 / 256 == b[0] as int * 256 + b[1] as int;
  }

  predicate Bounded(v: Bytes) {
    |v| <= MAX_AGENT_MESSAGE_BYTES
  }

  /** _ssh_string, for a value within the bound */
  function Frame(v: Bytes): (b: Bytes)
    requires Bounded(v)
    ensures |b| == 4 + |v|
  {
    U32(|v|) + v
  }

  /** _ssh_string */
  function SshString(v: Bytes): Option<Bytes> {
    if Bounded(v) then Some(Frame(v)) else None
  }

  datatype Taken = Taken(value: Bytes, offset: nat)

  /** _take_ssh_string */
  function Take(payload: Bytes, offset: nat): (r: Option<Taken>)
    ensures r.Some? ==> offset + 4 <= r.value.offset <= |payload|
  {
    if offset + 4 > |payload| then None else
      var length := ReadU32(payload[offset..offset + 4]);
      if length > MAX_AGENT_MESSAGE_BYTES || offset + 4 + length > |payload| then None
      else Some(Taken(payload[offset + 4..offset + 4 + length], offset + 4 + length))
  }

  /** Taking undoes framing, at any offset and before any suffix. */
  lemma TakeUndoesFrame(before: Bytes, v: Bytes, after: Bytes)
    requires Bounded(v)
    ensures SshString(v) == Some(Frame(v))
    ensures Take(before + Frame(v) + after, |before|) == Some(Taken(v, |before| + 4 + |v|))
  {
    hide U32, ReadU32;
    var p := before + Frame(v) + after;
    var o := |before|;
    U32RoundTrip(|v|);
    assert p[o..o + 4] == U32(|v|);
    assert p[o + 4..o + 4 + |v|] == v;
  }

  /** What is taken was framed: the bytes passed over are exactly its encoding. */
  lemma TakenWasFramed(p: Bytes, offset: nat)
    requires Take(p, offset).Some?
    ensures
      var t := Take(p, offset).value;
      Bounded(t.value) && t.offset == offset + 4 + |t.value| && p[offset..t.offset] == Frame(t.value)
  {
    hide U32, ReadU32;
    U32Exact(p[offset..offset + 4]);
    var t := Take(p, offset).value;
    assert p[offset..t.offset] == p[offset..offset + 4] + p[offset + 4..t.offset];
  }

  // ---------------------------------------------------------------- keys

  const ED25519: Bytes := [115, 115, 104, 45, 101, 100, 50, 53, 53, 49, 57] // "ssh-ed25519"

  /** _ed25519_key_blob (section 4 of RFC 8709) */
  function KeyBlob(key: Bytes): Option<Bytes> {
    if |key| != 32 then None else Some(Frame(ED25519) + Frame(key))
  }

  /** A key blob holds its key: taking two strings gives the algorithm name and the key, and nothing
      is left. */
  lemma KeyBlobHoldsKey(key: Bytes)
    requires |key| == 32
    ensures
      var blob := KeyBlob(key).value;
      && |blob| == 51
      && Take(blob, 0) == Some(Taken(ED25519, 15))
      && Take(blob, 15) == Some(Taken(key, 51))
  {
    hide Frame, Take;
    TakeUndoesFrame([], ED25519, Frame(key));
    assert [] + Frame(ED25519) + Frame(key) == Frame(ED25519) + Frame(key);
    TakeUndoesFrame(Frame(ED25519), key, []);
    assert Frame(ED25519) + Frame(key) + [] == Frame(ED25519) + Frame(key);
  }

  // ---------------------------------------------------------------- identity lists

  datatype Identity = Identity(blob: Bytes, comment: Bytes)

  predicate IdentityBounded(i: Identity) {
    Bounded(i.blob) && Bounded(i.comment)
  }

  predicate AllBounded(ids: seq<Identity>) {
    forall k :: 0 <= k < |ids| ==> IdentityBounded(ids[k])
  }

  function FrameAll(ids: seq<Identity>): Bytes
    requires AllBounded(ids)
  {
    if ids == [] then [] else Frame(ids[0].blob) + Frame(ids[0].comment) + FrameAll(ids[1..])
  }

  function Occurrences(ids: seq<Identity>, blob: Bytes): nat {
    if ids == [] then 0 else (if ids[0].blob == blob then 1 else 0) + Occurrences(ids[1..], blob)
  }

  /** The response an agent gives for a list of identities. */
  function Answer(ids: seq<Identity>): Bytes
    requires AllBounded(ids) && |ids| <= MAX_IDENTITIES
  {
    [IDENTITIES_ANSWER] + U32(|ids|) + FrameAll(ids)
  }

  datatype TakenAll = TakenAll(ids: seq<Identity>, offset: nat)

  function TakeAll(p: Bytes, offset: nat, n: nat): Option<TakenAll>
    decreases n
  {
    if n == 0 then Some(TakenAll([], offset)) else
      var blob := Take(p, offset);
      if blob.None? then None else
        var comment := Take(p, blob.value.offset);
        if comment.None? then None else
          var rest := TakeAll(p, comment.value.offset, n - 1);
          if rest.None? then None
          else Some(TakenAll([Identity(blob.value.value, comment.value.value)] + rest.value.ids, rest.value.offset))
  }

  lemma {:induction false} TakeAllUndoes(before: Bytes, ids: seq<Identity>, n: nat)
    requires AllBounded(ids) && n == |ids|
    ensures TakeAll(before + FrameAll(ids), |before|, n) == Some(TakenAll(ids, |before| + |FrameAll(ids)|))
    decreases n
  {
    hide Take, Frame;
    if n > 0 {
      var b, c, rest := Frame(ids[0].blob), Frame(ids[0].comment), FrameAll(ids[1..]);
      var p := before + FrameAll(ids);
      assert IdentityBounded(ids[0]);
      assert p == before + b + (c + rest);
      TakeUndoesFrame(before, ids[0].blob, c + rest);
      assert p == (before + b) + c + rest;
      TakeUndoesFrame(before + b, ids[0].comment, rest);
      assert p == (before + b + c) + rest;
      TakeAllUndoes(before + b + c, ids[1..], n - 1);
      assert [Identity(ids[0].blob, ids[0].comment)] + ids[1..] == ids;
    }
  }

  lemma {:induction false} TakenAllWereFramed(p: Bytes, offset: nat, n: nat)
    requires offset <= |p| && TakeAll(p, offset, n).Some?
    ensures
      var t := TakeAll(p, offset, n).value;
      && |t.ids| == n && AllBounded(t.ids) && offset <= t.offset <= |p|
      && p[offset..t.offset] == FrameAll(t.ids)
    decreases n
  {
    hide Take, Frame;
    if n > 0 {
      TakenWasFramed(p, offset);
      var blob := Take(p, offset).value;
      TakenWasFramed(p, blob.offset);
      var comment := Take(p, blob.offset).value;
      TakenAllWereFramed(p, comment.offset, n - 1);
      var rest := TakeAll(p, comment.offset, n - 1).value;
      var t := TakeAll(p, offset, n).value;
      assert t.ids[1..] == rest.ids;
      assert p[offset..t.offset] == p[offset..blob.offset] + p[blob.offset..comment.offset] + p[comment.offset..t.offset];
    }
  }

  /** The response as the loop reads it. */
  predicate Accepts(response: Bytes, expected: Bytes) {
    && |response| >= 5 && response[0] == IDENTITIES_ANSWER
    && (var count := ReadU32(response[1..5]);
        var all := TakeAll(response, 5, count);
        && count <= MAX_IDENTITIES
        && all.Some? && all.value.offset == |response| && Occurrences(all.value.ids, expected) == 1)
  }

  /** SSH framing is exact: a response is accepted if and only if it is the encoding of a list of at
      most 128 bounded pairs in which the expected key occurs exactly once. */
  lemma AcceptsExactly(response: Bytes, expected: Bytes)
    ensures Accepts(response, expected) <==>
            exists ids :: AllBounded(ids) && |ids| <= MAX_IDENTITIES && response == Answer(ids) && Occurrences(ids, expected) == 1
  {
    hide TakeAll, FrameAll, U32, ReadU32, Occurrences;
    if Accepts(response, expected) {
      var count := ReadU32(response[1..5]);
      var ids := TakeAll(response, 5, count).value.ids;
      TakenAllWereFramed(response, 5, count);
      U32Exact(response[1..5]);
      assert response == [response[0]] + response[1..5] + response[5..];
      assert response[5..|response|] == response[5..];
      assert response == Answer(ids);
    }
    if ids :| AllBounded(ids) && |ids| <= MAX_IDENTITIES && response == Answer(ids) && Occurrences(ids, expected) == 1 {
      U32RoundTrip(|ids|);
      assert response[1..5] == U32(|ids|);
      TakeAllUndoes([IDENTITIES_ANSWER] + U32(|ids|), ids, |ids|);
    }
  }

  /** Big-endian, four bytes. */
  ghost function Four(n: nat): Bytes {
    [(n / 0x1000000 % 256) as byte, (n / 0x10000 % 256) as byte, (n / 0x100 % 256) as byte, (n % 256) as byte]
  }

  /** Length and bytes of the key blob, length and bytes of the comment, pair after pair. */
  ghost function Pairs(ids: seq<Identity>): Bytes {
    if ids == [] then []
    else Four(|ids[0].blob|) + ids[0].blob + Four(|ids[0].comment|) + ids[0].comment + Pairs(ids[1..])
  }

  lemma FourIs(n: nat)
    requires n < 0x1_0000_0000
    ensures U32(n) == Four(n)
  {}

  lemma {:induction false} PairsAre(ids: seq<Identity>)
    requires AllBounded(ids)
    ensures FrameAll(ids) == Pairs(ids)
    decreases |ids|
  {
    hide U32, Four;
    if ids != [] {
      assert IdentityBounded(ids[0]);
      FourIs(|ids[0].blob|);
      FourIs(|ids[0].comment|);
      PairsAre(ids[1..]);
    }
  }

  /** Pair `k` has this key, and no other. */
  ghost predicate OnlyAt(ids: seq<Identity>, blob: Bytes, k: nat) {
    k < |ids| && forall j :: 0 <= j < |ids| ==> (ids[j].blob == blob <==> j == k)
  }

  ghost predicate Once(ids: seq<Identity>, blob: Bytes) {
    exists k: nat :: OnlyAt(ids, blob, k)
  }

  lemma {:induction false} NoneOccurs(ids: seq<Identity>, blob: Bytes)
    ensures Occurrences(ids, blob) == 0 <==> forall j :: 0 <= j < |ids| ==> ids[j].blob != blob
    decreases |ids|
  {
    if ids != [] {
      NoneOccurs(ids[1..], blob);
      if forall j :: 0 <= j < |ids[1..]| ==> ids[1..][j].blob != blob {
        assert forall j :: 1 <= j < |ids| ==> ids[j] == ids[1..][j - 1];
      }
    }
  }

  lemma {:induction false} OnceIff(ids: seq<Identity>, blob: Bytes)
    ensures Occurrences(ids, blob) == 1 <==> Once(ids, blob)
    decreases |ids|
  {
    if ids != [] {
      var rest := ids[1..];
      NoneOccurs(rest, blob);
      OnceIff(rest, blob);
      assert forall j :: 1 <= j < |ids| ==> ids[j] == rest[j - 1];
      if Once(ids, blob) {
        var k: nat :| OnlyAt(ids, blob, k);
        if k > 0 {
          assert OnlyAt(rest, blob, k - 1);
        }
      }
      if Once(rest, blob) && ids[0].blob != blob {
        var k: nat :| OnlyAt(rest, blob, k);
        assert OnlyAt(ids, blob, k + 1);
      }
      if Occurrences(rest, blob) == 0 && ids[0].blob == blob {
        assert OnlyAt(ids, blob, 0);
      }
    }
  }

  /** The same in the protocol's numbers: message 12, at most 128 pairs, no string over a mebibyte. */
  lemma AcceptedIff(response: Bytes, expected: Bytes)
    ensures Accepts(response, expected) <==>
            exists ids: seq<Identity> ::
              && |ids| <= 128 && (forall id :: id in ids ==> |id.blob| <= 1024 * 1024 && |id.comment| <= 1024 * 1024)
              && response == [12] + Four(|ids|) + Pairs(ids) && Once(ids, expected)
  {
    hide Accepts, Occurrences, Once, FrameAll, Pairs, Four, U32;
    AcceptsExactly(response, expected);
    forall ids: seq<Identity> | AllBounded(ids)
      ensures FrameAll(ids) == Pairs(ids) && (Occurrences(ids, expected) == 1 <==> Once(ids, expected))
    {
      PairsAre(ids);
      OnceIff(ids, expected);
    }
    forall n: nat | n < 0x1_0000_0000 ensures U32(n) == Four(n) {
      FourIs(n);
    }
    if ids :| AllBounded(ids) && |ids| <= MAX_IDENTITIES && response == Answer(ids) && Occurrences(ids, expected) == 1 {
      assert forall k :: 0 <= k < |ids| ==> IdentityBounded(ids[k]);
    }
    if ids: seq<Identity> :|
      && |ids| <= 128 && (forall id :: id in ids ==> |id.blob| <= 1024 * 1024 && |id.comment| <= 1024 * 1024)
      && response == [12] + Four(|ids|) + Pairs(ids) && Once(ids, expected)
    {
      assert forall k :: 0 <= k < |ids| ==> ids[k] in ids;
      assert AllBounded(ids) && response == Answer(ids);
    }
  }

  lemma {:induction false} OccurrencesJoin(a: seq<Identity>, b: seq<Identity>, blob: Bytes)
    ensures Occurrences(a + b, blob) == Occurrences(a, blob) + Occurrences(b, blob)
    decreases |a|
  {
    if a == [] {
      assert a + b == b;
    } else {
      assert (a + b)[1..] == a[1..] + b;
      OccurrencesJoin(a[1..], b, blob);
    }
  }

  /** _require_agent_identity, on the response received */
  method RequireAgentIdentity(response: Bytes, expected: Bytes) returns (ok: bool)
    ensures ok <==> Accepts(response, expected)
  {
    hide Take, ReadU32, Occurrences;
    if |response| == 0 || response[0] == AGENT_FAILURE {
      return false;
    }
    if response[0] != IDENTITIES_ANSWER || |response| < 5 {
      return false;
    }
    var count := ReadU32(response[1..5]);
    if count > MAX_IDENTITIES {
      return false;
    }
    var offset, matched, k := 5, 0, 0;
    ghost var seen: seq<Identity> := [];
    assert Occurrences([], expected) == 0 by { NoOccurrences(expected); }
    ghost var whole := TakeAll(response, 5, count);
    assert whole.Some? ==> [] + whole.value.ids == whole.value.ids;
    while k < count
      invariant 0 <= k <= count && matched == Occurrences(seen, expected)
      invariant
        var rest := TakeAll(response, offset, count - k);
        TakeAll(response, 5, count) ==
          if rest.None? then None else Some(TakenAll(seen + rest.value.ids, rest.value.offset))
    {
      var blob := Take(response, offset);
      if blob.None? {
        return false;
      }
      var comment := Take(response, blob.value.offset);
      if comment.None? {
        return false;
      }
      ghost var one := Identity(blob.value.value, comment.value.value);
      ghost var rest := TakeAll(response, comment.value.offset, count - k - 1);
      assert rest.Some? ==> seen + ([one] + rest.value.ids) == (seen + [one]) + rest.value.ids;
      OccurrencesJoin(seen, [one], expected);
      OneOccurrence(one, expected);
      if blob.value.value == expected {
        matched := matched + 1;
      }
      seen := seen + [one];
      offset, k := comment.value.offset, k + 1;
    }
    assert seen + [] == seen;
    ok := offset == |response| && matched == 1;
  }

  lemma NoOccurrences(blob: Bytes)
    ensures Occurrences([], blob) == 0
  {}

  lemma OneOccurrence(i: Identity, blob: Bytes)
    ensures Occurrences([i], blob) == if i.blob == blob then 1 else 0
  {
    assert [i][1..] == [];
  }
}
