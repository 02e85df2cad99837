/** Marked-block editing (src/sddgov/installer.py): insert, replace and remove one block between two
    markers in a text that otherwise belongs to the user. AGENTS.md and .gitignore are edited by the
    same rules with different markers. */
module MarkedBlocks {
  import opened Common

  datatype Marks = Marks(start: string, end: string)

  const AGENTS_MARKS: Marks := Marks("<!-- agentic-sdd-governance:start -->", "<!-- agentic-sdd-governance:end -->")
  const GITIGNORE_MARKS: Marks := Marks("# agentic-sdd-governance:start", "# agentic-sdd-governance:end")

  // ---------------------------------------------------------------- strings

  predicate OccursAt(t: string, m: string, i: int) {
    0 <= i && i + |m| <= |t| && forall k :: 0 <= k < |m| ==> t[i + k] == m[k]
  }

  predicate Occurs(t: string, m: string) {
    exists i :: 0 <= i <= |t| && OccursAt(t, m, i)
  }

  /** text.find(m, from) */
  function Find(t: string, m: string, from: nat): (r: Option<nat>)
    ensures r.Some? ==> from <= r.value && OccursAt(t, m, r.value) && forall j :: from <= j < r.value ==> !OccursAt(t, m, j)
    ensures r.None? ==> forall j :: from <= j ==> !OccursAt(t, m, j)
    decreases if from <= |t| then |t| - from + 1 else 0
  {
    if from > |t| then None else if OccursAt(t, m, from) then Some(from) else Find(t, m, from + 1)
  }

  function LStrip(t: string): string {
    if t != "" && IsWhite(t[0]) then LStrip(t[1..]) else t
  }

  function RStrip(t: string): string {
    if t != "" && IsWhite(t[|t| - 1]) then RStrip(t[..|t| - 1]) else t
  }

  function Strip(t: string): string {
    RStrip(LStrip(t))
  }

  /** text.replace(old, new); an empty old, which no marked block is, replaces nothing */
  function ReplaceAll(t: string, m: string, b: string): string
    decreases |t|
  {
    var i := Find(t, m, 0);
    if m == "" || i.None? then t else t[..i.value] + b + ReplaceAll(t[i.value + |m|..], m, b)
  }

  function WithNewline(t: string): string {
    if t != "" && t[|t| - 1] == '\n' then t else t + "\n"
  }

  // ---------------------------------------------------------------- the operations

  datatype Extraction = Absent | Malformed | Block(from: nat, to: nat)

  /** _extract_marked_block, with positions */
  function Extract(t: string, m: Marks): (x: Extraction)
    ensures x.Block? ==> x.from <= x.to <= |t|
  {
    var start, end := Find(t, m.start, 0), Find(t, m.end, 0);
    if start.None? && end.None? then Absent
    else if start.None? || end.None? || end.value < start.value then Malformed
    else if Find(t, m.start, start.value + 1).Some? || Find(t, m.end, end.value + 1).Some? then Malformed
    else Block(start.value, end.value + |m.end|)
  }

  /** _upsert_block and _upsert_gitignore; None is the error on a malformed file. */
  function Upsert(t: string, m: Marks, b: string): Option<string> {
    match Extract(t, m)
    case Malformed => None
    case Absent => Some(if Strip(t) != "" then RStrip(t) + "\n\n" + b + "\n" else b + "\n")
    case Block(from, to) => Some(WithNewline(ReplaceAll(t, t[from..to], b)))
  }

  datatype Removal = Error | NotFound | Rewritten(text: string) | Unlinked

  /** _remove_block and _remove_gitignore_block */
  function Remove(t: string, m: Marks): Removal {
    match Extract(t, m)
    case Malformed => Error
    case Absent => NotFound
    case Block(from, to) =>
      assert OccursAt(t, t[from..to], from);
      var cut := Find(t, t[from..to], 0).value;
      var before, after := t[..cut], t[cut + (to - from)..];
      var updated := if Strip(before) != "" && Strip(after) != "" then RStrip(before) + "\n\n" + LStrip(after)
                     else var s := Strip(before + after); if s != "" then s + "\n" else "";
      if updated != "" then Rewritten(updated) else Unlinked
  }

  // ---------------------------------------------------------------- markers and blocks

  /** Markers are nonempty, on one line, and neither is part of the other. */
  predicate MarksOk(m: Marks) {
    && m.start != "" && m.end != "" && '\n' !in m.start && '\n' !in m.end
    && !Occurs(m.start, m.end) && !Occurs(m.end, m.start)
  }

  predicate Only(t: string, m: string, i: int) {
    OccursAt(t, m, i) && forall j :: 0 <= j <= |t| && OccursAt(t, m, j) ==> j == i
  }

  /** A block has one start marker, at its front, and one end marker, at its end. */
  predicate IsBlock(b: string, m: Marks) {
    Only(b, m.start, 0) && Only(b, m.end, |b| - |m.end|)
  }

  /** The block stands in the text, and no other marker does. */
  predicate Stands(t: string, m: Marks, before: string, b: string, after: string) {
    && t == before + b + after
    && Only(t, m.start, |before|) && Only(t, m.end, |before| + |b| - |m.end|)
  }

  lemma ExtractStanding(t: string, m: Marks, before: string, b: string, after: string)
    requires MarksOk(m) && Stands(t, m, before, b, after) && |b| >= |m.end|
    ensures Extract(t, m) == Block(|before|, |before| + |b|)
    ensures t[|before|..|before| + |b|] == b
  {
    hide OccursAt;
    assert OccursAt(t, m.start, |before|) && OccursAt(t, m.end, |before| + |b| - |m.end|);
    LastPlace(t, m.start, |before|);
    LastPlace(t, m.end, |before| + |b| - |m.end|);
  }

  /** A unique occurrence is found first and not again. */
  lemma LastPlace(t: string, m: string, i: nat)
    requires m != "" && Only(t, m, i)
    ensures Find(t, m, 0) == Some(i) && Find(t, m, i + 1).None?
  {
    var first := Find(t, m, 0);
    assert OccursAt(t, m, i);
    assert first.Some? ==> OccursAt(t, m, first.value) && first.value <= |t|;
  }

  /** Found once, and not again after that: the only place. */
  lemma OnlyPlace(t: string, m: string, i: nat)
    requires Find(t, m, 0) == Some(i) && Find(t, m, i + 1).None?
    ensures Only(t, m, i)
  {
    hide OccursAt;
  }

  /** What extraction found, taken apart. */
  lemma ExtractedStands(t: string, m: Marks)
    requires MarksOk(m) && Extract(t, m).Block?
    ensures
      var x := Extract(t, m);
      && |t[x.from..x.to]| >= |m.start| && |t[x.from..x.to]| >= |m.end|
      && Stands(t, m, t[..x.from], t[x.from..x.to], t[x.to..])
      && OccursAt(t[x.from..x.to], m.start, 0) && OccursAt(t[x.from..x.to], m.end, x.to - x.from - |m.end|)
  {
    hide OccursAt, Occurs, Only;
    var x := Extract(t, m);
    var s, e := Find(t, m.start, 0).value, Find(t, m.end, 0).value;
    if e + |m.end| <= s + |m.start| {
      Covers(t, m.start, s, m.end, e);
    }
    OnlyPlace(t, m.start, s);
    OnlyPlace(t, m.end, e);
    var before, c, after := t[..x.from], t[x.from..x.to], t[x.to..];
    assert t == before + c + after;
    Within(before, c, after, m.start, s);
    Within(before, c, after, m.end, e);
  }

  // ---------------------------------------------------------------- swapping one block for another

  /** An occurrence in the text with the new block, carried back to the text with the old one. */
  lemma SameWindow(a: string, b: string, m: string, i: int, j: int)
    requires OccursAt(a, m, i) && 0 <= j && j + |m| <= |b|
    requires a[i..i + |m|] == b[j..j + |m|]
    ensures OccursAt(b, m, j)
  {
    forall k | 0 <= k < |m| ensures b[j + k] == m[k] {
      assert a[i + k] == m[k] && a[i..i + |m|][k] == b[j..j + |m|][k];
    }
  }

  /** A marker found in front of, or into, the new block is found there with the old one too, as
      far as the two blocks agree. */
  lemma InFront(before: string, b: string, c: string, after: string, m: string, i: int, same: nat)
    requires same <= |b| && same <= |c| && b[..same] == c[..same]
    requires OccursAt(before + b + after, m, i) && i + |m| <= |before| + same
    ensures OccursAt(before + c + after, m, i)
  {
    var new_, old_ := before + b + after, before + c + after;
    var x, y := new_[i..i + |m|], old_[i..i + |m|];
    forall k | 0 <= k < |m| ensures x[k] == y[k] {
      assert x[k] == new_[i + k] && y[k] == old_[i + k];
      if i + k >= |before| {
        assert new_[i + k] == b[..same][i + k - |before|] && old_[i + k] == c[..same][i + k - |before|];
      }
    }
    SameWindow(new_, old_, m, i, i);
  }

  lemma Behind(before: string, b: string, c: string, after: string, m: string, i: int, same: nat)
    requires same <= |b| && same <= |c| && b[|b| - same..] == c[|c| - same..]
    requires OccursAt(before + b + after, m, i) && i >= |before| + |b| - same
    ensures OccursAt(before + c + after, m, i - |b| + |c|)
  {
    var new_, old_ := before + b + after, before + c + after;
    var j := i - |b| + |c|;
    var x, y := new_[i..i + |m|], old_[j..j + |m|];
    forall k | 0 <= k < |m| ensures x[k] == y[k] {
      assert x[k] == new_[i + k] && y[k] == old_[j + k];
      if i + k < |before| + |b| {
        var p := i + k - (|before| + |b| - same);
        assert new_[i + k] == b[|b| - same..][p] && old_[j + k] == c[|c| - same..][p];
      }
    }
    SameWindow(new_, old_, m, i, j);
  }

  /** A marker inside the new block. */
  lemma Within(before: string, b: string, after: string, m: string, i: int)
    requires OccursAt(before + b + after, m, i) && |before| <= i && i + |m| <= |before| + |b|
    ensures OccursAt(b, m, i - |before|)
  {
    var t := before + b + after;
    assert t[i..i + |m|] == b[i - |before|..i - |before| + |m|];
    SameWindow(t, b, m, i, i - |before|);
  }

  /** A marker that covers the other marker contains it. */
  lemma Covers(t: string, m: string, i: int, n: string, j: int)
    requires OccursAt(t, m, i) && OccursAt(t, n, j) && i <= j && j + |n| <= i + |m|
    ensures Occurs(m, n)
  {
    forall k | 0 <= k < |n| ensures m[j - i + k] == n[k] {
      assert t[i + (j - i + k)] == m[j - i + k] && t[j + k] == n[k];
    }
    assert OccursAt(m, n, j - i);
  }

  lemma Placed(before: string, b: string, after: string, m: string, p: int)
    requires OccursAt(b, m, p)
    ensures OccursAt(before + b + after, m, |before| + p)
  {
    var t := before + b + after;
    assert b[p..p + |m|] == t[|before| + p..|before| + p + |m|];
    SameWindow(b, t, m, p, |before| + p);
  }

  lemma Front(b: string, m: string)
    requires OccursAt(b, m, 0)
    ensures b[..|m|] == m
  {}

  lemma Back(b: string, m: string)
    requires OccursAt(b, m, |b| - |m|)
    ensures b[|b| - |m|..] == m
  {
    forall k | 0 <= k < |m| ensures b[|b| - |m|..][k] == m[k] {
      assert b[|b| - |m| + k] == m[k];
    }
  }

  /** The start marker stays unique when one block replaces another. */
  lemma SwapStart(m: Marks, before: string, c: string, b: string, after: string, i: int)
    requires MarksOk(m) && IsBlock(b, m) && |c| >= |m.start| && |c| >= |m.end|
    requires OccursAt(c, m.start, 0) && OccursAt(c, m.end, |c| - |m.end|)
    requires Only(before + c + after, m.start, |before|)
    requires OccursAt(before + b + after, m.start, i)
    ensures i == |before|
  {
    hide OccursAt;
    var new_ := before + b + after;
    Front(b, m.start); Front(c, m.start); Back(b, m.end); Back(c, m.end);
    assert InBounds(b, m.start, 0) && InBounds(b, m.end, |b| - |m.end|) && InBounds(new_, m.start, i) by {
      Bounds(b, m.start, 0); Bounds(b, m.end, |b| - |m.end|); Bounds(new_, m.start, i);
    }
    if i + |m.start| <= |before| + |m.start| {
      InFront(before, b, c, after, m.start, i, |m.start|);
    } else if i + |m.start| <= |before| + |b| {
      Within(before, b, after, m.start, i);
    } else if i >= |before| + |b| - |m.end| {
      Behind(before, b, c, after, m.start, i, |m.end|);
    } else {
      Placed(before, b, after, m.end, |b| - |m.end|);
      Covers(new_, m.start, i, m.end, |before| + |b| - |m.end|);
    }
  }

  predicate InBounds(t: string, m: string, i: int) {
    0 <= i && i + |m| <= |t|
  }

  lemma Bounds(t: string, m: string, i: int)
    requires OccursAt(t, m, i)
    ensures InBounds(t, m, i)
  {}

  lemma SwapEnd(m: Marks, before: string, c: string, b: string, after: string, i: int)
    requires MarksOk(m) && IsBlock(b, m) && |c| >= |m.start| && |c| >= |m.end|
    requires OccursAt(c, m.start, 0) && OccursAt(c, m.end, |c| - |m.end|)
    requires Only(before + c + after, m.end, |before| + |c| - |m.end|)
    requires OccursAt(before + b + after, m.end, i)
    ensures i == |before| + |b| - |m.end|
  {
    hide OccursAt;
    var new_ := before + b + after;
    Front(b, m.start); Front(c, m.start); Back(b, m.end); Back(c, m.end);
    assert InBounds(b, m.start, 0) && InBounds(b, m.end, |b| - |m.end|) && InBounds(new_, m.end, i) by {
      Bounds(b, m.start, 0); Bounds(b, m.end, |b| - |m.end|); Bounds(new_, m.end, i);
    }
    if i >= |before| + |b| - |m.end| {
      Behind(before, b, c, after, m.end, i, |m.end|);
    } else if i >= |before| {
      Within(before, b, after, m.end, i);
    } else if i + |m.end| <= |before| + |m.start| {
      InFront(before, b, c, after, m.end, i, |m.start|);
    } else {
      Placed(before, b, after, m.start, 0);
      Covers(new_, m.end, i, m.start, |before|);
    }
  }

  /** A new block takes the old one's place, and it alone stands there. */
  lemma SwapStands(m: Marks, before: string, c: string, b: string, after: string)
    requires MarksOk(m) && IsBlock(b, m) && |c| >= |m.start| && |c| >= |m.end|
    requires OccursAt(c, m.start, 0) && OccursAt(c, m.end, |c| - |m.end|)
    requires Stands(before + c + after, m, before, c, after)
    ensures Stands(before + b + after, m, before, b, after)
  {
    hide OccursAt;
    var t := before + b + after;
    assert OccursAt(b, m.start, 0) && OccursAt(b, m.end, |b| - |m.end|);
    Placed(before, b, after, m.start, 0);
    Placed(before, b, after, m.end, |b| - |m.end|);
    forall j | 0 <= j <= |t| && OccursAt(t, m.start, j) ensures j == |before| {
      SwapStart(m, before, c, b, after, j);
    }
    forall j | 0 <= j <= |t| && OccursAt(t, m.end, j) ensures j == |before| + |b| - |m.end| {
      SwapEnd(m, before, c, b, after, j);
    }
  }

  /** The standing block occurs once, so replacing it touches nothing else. */
  lemma ReplacesOnce(t: string, m: Marks, before: string, c: string, after: string, b: string)
    requires MarksOk(m) && Stands(t, m, before, c, after) && OccursAt(c, m.start, 0) && c != ""
    ensures Find(t, c, 0) == Some(|before|)
    ensures ReplaceAll(t, c, b) == before + b + after
  {
    hide OccursAt;
    WholeAt(before, c, after);
    forall i | 0 <= i && OccursAt(t, c, i) ensures i == |before| {
      Bounds(t, c, i);
      StartsWith(t, c, m.start, i);
    }
    var first := Find(t, c, 0);
    assert first == Some(|before|);
    assert t[..|before|] == before && t[|before| + |c|..] == after;
    var more := Find(after, c, 0);
    if more.Some? {
      Bounds(after, c, more.value);
      InTail(before + c, after, c, more.value);
    }
  }

  lemma WholeAt(before: string, c: string, after: string)
    ensures OccursAt(before + c + after, c, |before|)
  {}

  lemma StartsWith(t: string, c: string, s: string, i: int)
    requires OccursAt(t, c, i) && OccursAt(c, s, 0)
    ensures OccursAt(t, s, i)
  {
    forall k | 0 <= k < |s| ensures t[i + k] == s[k] {
      assert t[i + k] == c[k] && c[0 + k] == s[k];
    }
  }

  lemma InTail(head: string, tail: string, c: string, i: nat)
    requires OccursAt(tail, c, i)
    ensures OccursAt(head + tail, c, |head| + i)
  {
    forall k | 0 <= k < |c| ensures (head + tail)[|head| + i + k] == c[k] {
      assert tail[i + k] == c[k];
    }
  }

  // ---------------------------------------------------------------- adding to a text without markers

  /** No marker starts or ends inside a run that contains a newline. */
  lemma NotAcross(a: string, b: string, m: string, i: int)
    requires '\n' !in m && m != "" && OccursAt(a + "\n" + b, m, i)
    ensures i + |m| <= |a| || i > |a|
  {
    hide OccursAt;
    var t := a + "\n" + b;
    if i <= |a| && |a| < i + |m| {
      CharUnder(t, m, i, |a|);
    }
  }

  /** A character under a marker is a character of the marker. */
  lemma CharUnder(t: string, m: string, i: int, p: nat)
    requires OccursAt(t, m, i) && i <= p < i + |m|
    ensures p < |t| && t[p] in m
  {
    assert t[i + (p - i)] == m[p - i];
  }

  lemma FoundIn(a: string, m: string, i: int)
    requires OccursAt(a, m, i)
    ensures Occurs(a, m)
  {}

  lemma InHead(a: string, b: string, m: string, i: int)
    requires OccursAt(a + b, m, i) && i + |m| <= |a|
    ensures OccursAt(a, m, i)
  {
    forall k | 0 <= k < |m| ensures a[i + k] == m[k] {
      assert (a + b)[i + k] == m[k];
    }
  }

  lemma FromTail(a: string, b: string, m: string, i: int)
    requires OccursAt(a + b, m, i) && i >= |a|
    ensures OccursAt(b, m, i - |a|)
  {
    forall k | 0 <= k < |m| ensures b[i - |a| + k] == m[k] {
      assert (a + b)[i + k] == m[k];
    }
  }

  predicate NoMarks(t: string, m: Marks) {
    !Occurs(t, m.start) && !Occurs(t, m.end)
  }

  /** A marker in `a`, newline, block, newline is in the block. */
  lemma InNewBlock(a: string, b: string, m: string, i: int)
    requires '\n' !in m && m != "" && !Occurs(a, m)
    requires OccursAt(a + "\n\n" + b + "\n", m, i)
    ensures OccursAt(b, m, i - |a| - 2)
  {
    hide OccursAt, Occurs;
    var t := a + "\n\n" + b + "\n";
    Bounds(t, m, i);
    assert t == a + "\n" + ("\n" + b + "\n") && t == (a + "\n") + "\n" + (b + "\n");
    NotAcross(a, "\n" + b + "\n", m, i);
    NotAcross(a + "\n", b + "\n", m, i);
    if i + |m| <= |a| {
      assert t == a + ("\n\n" + b + "\n");
      InHead(a, "\n\n" + b + "\n", m, i);
      FoundIn(a, m, i);
    }
    var rest := b + "\n";
    assert t == (a + "\n\n") + rest;
    FromTail(a + "\n\n", rest, m, i);
    assert rest == b + "\n" + "";
    NotAcross(b, "", m, i - |a| - 2);
    Bounds(rest, m, i - |a| - 2);
    InHead(b, "\n", m, i - |a| - 2);
  }

  lemma AddedStands(m: Marks, a: string, b: string)
    requires MarksOk(m) && IsBlock(b, m) && NoMarks(a, m)
    ensures Stands(a + "\n\n" + b + "\n", m, a + "\n\n", b, "\n")
  {
    hide OccursAt, Occurs;
    var t := a + "\n\n" + b + "\n";
    assert t == (a + "\n\n") + b + "\n";
    assert OccursAt(b, m.start, 0) && OccursAt(b, m.end, |b| - |m.end|);
    Placed(a + "\n\n", b, "\n", m.start, 0);
    Placed(a + "\n\n", b, "\n", m.end, |b| - |m.end|);
    forall j | 0 <= j <= |t| && OccursAt(t, m.start, j) ensures j == |a| + 2 {
      InNewBlock(a, b, m.start, j);
      Bounds(b, m.start, j - |a| - 2);
    }
    forall j | 0 <= j <= |t| && OccursAt(t, m.end, j) ensures j == |a| + 2 + |b| - |m.end| {
      InNewBlock(a, b, m.end, j);
      Bounds(b, m.end, j - |a| - 2);
    }
  }

  lemma AloneStands(m: Marks, b: string)
    requires MarksOk(m) && IsBlock(b, m)
    ensures Stands(b + "\n", m, "", b, "\n")
  {
    hide OccursAt;
    var t := b + "\n";
    assert t == "" + b + "\n" && t == b + "\n" + "";
    assert OccursAt(b, m.start, 0) && OccursAt(b, m.end, |b| - |m.end|);
    Placed("", b, "\n", m.start, 0);
    Placed("", b, "\n", m.end, |b| - |m.end|);
    forall j, x | 0 <= j <= |t| && (x == m.start || x == m.end) && OccursAt(t, x, j) ensures OccursAt(b, x, j) && j <= |b| {
      NotAcross(b, "", x, j);
      Bounds(t, x, j);
      InHead(b, "\n", x, j);
    }
  }

  /** Stripping a text adds no marker. */
  lemma {:induction false} RStripPrefix(t: string)
    ensures RStrip(t) <= t
    ensures forall k :: |RStrip(t)| <= k < |t| ==> IsWhite(t[k])
    decreases |t|
  {
    if t != "" && IsWhite(t[|t| - 1]) {
      RStripPrefix(t[..|t| - 1]);
    }
  }

  lemma StillNoMarks(t: string, m: Marks)
    requires NoMarks(t, m)
    ensures NoMarks(RStrip(t), m) && Extract(t, m) == Absent
  {
    RStripPrefix(t);
    var a := RStrip(t);
    forall i, x | 0 <= i <= |a| && (x == m.start || x == m.end) && OccursAt(a, x, i) ensures false {
      forall k | 0 <= k < |x| ensures t[i + k] == x[k] {
        assert a[i + k] == x[k];
      }
      assert OccursAt(t, x, i) && Occurs(t, x);
    }
    assert Find(t, m.start, 0).Some? ==> Occurs(t, m.start);
    assert Find(t, m.end, 0).Some? ==> Occurs(t, m.end);
  }

  // ---------------------------------------------------------------- the blocks the installer makes

  /** _adapter_block: a body between the two markers */
  function BlockOf(m: Marks, body: string): string {
    m.start + "\n" + body + "\n" + m.end
  }

  /** A marker in head, newline, body, newline, tail, where the body has none, is in head or tail. */
  lemma AroundBody(head: string, body: string, tail: string, m: string, i: int)
    requires '\n' !in m && m != "" && !Occurs(body, m)
    requires OccursAt(head + "\n" + body + "\n" + tail, m, i)
    ensures OccursAt(head, m, i) || OccursAt(tail, m, i - |head| - |body| - 2)
  {
    hide OccursAt, Occurs;
    var t := head + "\n" + body + "\n" + tail;
    Bounds(t, m, i);
    var rest := body + "\n" + tail;
    assert t == head + "\n" + rest;
    NotAcross(head, rest, m, i);
    if i + |m| <= |head| {
      assert t == head + ("\n" + rest);
      InHead(head, "\n" + rest, m, i);
    } else {
      assert t == (head + "\n") + rest;
      FromTail(head + "\n", rest, m, i);
      var j := i - |head| - 1;
      NotAcross(body, tail, m, j);
      if j + |m| <= |body| {
        assert rest == body + ("\n" + tail);
        Bounds(rest, m, j);
        InHead(body, "\n" + tail, m, j);
        FoundIn(body, m, j);
      } else {
        assert rest == (body + "\n") + tail;
        FromTail(body + "\n", tail, m, j);
      }
    }
  }

  lemma StartOfBlock(m: Marks, body: string, j: int)
    requires MarksOk(m) && NoMarks(body, m) && OccursAt(BlockOf(m, body), m.start, j)
    ensures j == 0
  {
    hide OccursAt, Occurs;
    AroundBody(m.start, body, m.end, m.start, j);
    if OccursAt(m.start, m.start, j) {
      Bounds(m.start, m.start, j);
    } else {
      FoundIn(m.end, m.start, j - |m.start| - |body| - 2);
    }
  }

  lemma EndOfBlock(m: Marks, body: string, j: int)
    requires MarksOk(m) && NoMarks(body, m) && OccursAt(BlockOf(m, body), m.end, j)
    ensures j == |BlockOf(m, body)| - |m.end|
  {
    hide OccursAt, Occurs;
    AroundBody(m.start, body, m.end, m.end, j);
    if OccursAt(m.start, m.end, j) {
      FoundIn(m.start, m.end, j);
    } else {
      Bounds(m.end, m.end, j - |m.start| - |body| - 2);
    }
  }

  lemma MarkersOfBlock(m: Marks, body: string)
    ensures OccursAt(BlockOf(m, body), m.start, 0)
    ensures |BlockOf(m, body)| >= |m.end| && OccursAt(BlockOf(m, body), m.end, |BlockOf(m, body)| - |m.end|)
  {
    var b := BlockOf(m, body);
    assert b[..|m.start|] == m.start;
    assert b[|b| - |m.end|..] == m.end;
    forall k | 0 <= k < |m.start| ensures b[0 + k] == m.start[k] {
      assert b[..|m.start|][k] == m.start[k];
    }
    forall k | 0 <= k < |m.end| ensures b[|b| - |m.end| + k] == m.end[k] {
      assert b[|b| - |m.end|..][k] == m.end[k];
    }
  }

  /** Any body without markers makes a block. */
  lemma BodyMakesBlock(m: Marks, body: string)
    requires MarksOk(m) && NoMarks(body, m)
    ensures IsBlock(BlockOf(m, body), m)
  {
    hide OccursAt, Occurs, MarksOk, NoMarks, BlockOf;
    var b := BlockOf(m, body);
    MarkersOfBlock(m, body);
    forall j | 0 <= j <= |b| && OccursAt(b, m.start, j) ensures j == 0 {
      StartOfBlock(m, body, j);
    }
    forall j | 0 <= j <= |b| && OccursAt(b, m.end, j) ensures j == |b| - |m.end| {
      EndOfBlock(m, body, j);
    }
  }

  /** The two pairs of markers the installer uses meet these demands. */
  lemma InstallerMarksAreOk()
    ensures MarksOk(AGENTS_MARKS) && MarksOk(GITIGNORE_MARKS)
  {
    hide MarksOk;
    AgentsMarksAreOk();
    GitignoreMarksAreOk();
  }

  lemma AgentsMarksAreOk()
    ensures MarksOk(AGENTS_MARKS)
  {
    hide Occurs;
    AgentsMarksAreApart();
    assert '\n' !in AGENTS_MARKS.start;
    assert '\n' !in AGENTS_MARKS.end;
  }

  lemma AgentsMarksAreApart()
    ensures !Occurs(AGENTS_MARKS.start, AGENTS_MARKS.end) && !Occurs(AGENTS_MARKS.end, AGENTS_MARKS.start)
  {
    hide Occurs;
    NotInside(AGENTS_MARKS, '<', 28);
  }

  lemma GitignoreMarksAreOk()
    ensures MarksOk(GITIGNORE_MARKS)
  {
    hide Occurs;
    GitignoreMarksAreApart();
    assert '\n' !in GITIGNORE_MARKS.start;
    assert '\n' !in GITIGNORE_MARKS.end;
  }

  lemma GitignoreMarksAreApart()
    ensures !Occurs(GITIGNORE_MARKS.start, GITIGNORE_MARKS.end) && !Occurs(GITIGNORE_MARKS.end, GITIGNORE_MARKS.start)
  {
    hide Occurs;
    NotInside(GITIGNORE_MARKS, '#', 25);
  }

  /** A start marker two characters longer than the end marker, from which it differs at `k`, and
      whose second and third characters are not the first. */
  lemma NotInside(m: Marks, c: char, k: nat)
    requires |m.start| == |m.end| + 2 && k < |m.end| && m.start[k] != m.end[k]
    requires m.end[0] == c && m.start[1] != c && m.start[2] != c
    ensures !Occurs(m.start, m.end) && !Occurs(m.end, m.start)
  {
    assert !OccursAt(m.start, m.end, 0);
    assert !OccursAt(m.start, m.end, 1) by { assert m.start[1 + 0] != m.end[0]; }
    assert !OccursAt(m.start, m.end, 2) by { assert m.start[2 + 0] != m.end[0]; }
  }

  // ---------------------------------------------------------------- the theorems

  /** What stands after an upsert, and what stands around it. */
  lemma UpsertStands(t: string, m: Marks, b: string) returns (before: string, after: string)
    requires MarksOk(m) && IsBlock(b, m) && (NoMarks(t, m) || Extract(t, m).Block?)
    ensures Upsert(t, m, b).Some? && Stands(Upsert(t, m, b).value, m, before, b, after)
    ensures var u := Upsert(t, m, b).value; u != "" && u[|u| - 1] == '\n'
    ensures NoMarks(t, m) ==> after == "\n" && (before == if Strip(t) != "" then RStrip(t) + "\n\n" else "")
    ensures Extract(t, m).Block? ==>
              var x := Extract(t, m);
              before == t[..x.from] && (after == t[x.to..] || after == t[x.to..] + "\n")
  {
    hide OccursAt, ReplaceAll, Only;
    if NoMarks(t, m) {
      StillNoMarks(t, m);
      after := "\n";
      if Strip(t) != "" {
        before := RStrip(t) + "\n\n";
        AddedStands(m, RStrip(t), b);
      } else {
        before := "";
        AloneStands(m, b);
      }
    } else {
      var x := Extract(t, m);
      before, after := t[..x.from], t[x.to..];
      var c := t[x.from..x.to];
      ExtractedStands(t, m);
      assert t == before + c + after;
      assert c != "";
      ReplacesOnce(t, m, before, c, after, b);
      SwapStands(m, before, c, b, after);
      var u := before + b + after;
      if u == "" || u[|u| - 1] != '\n' {
        LineAdded(m, before, b, after);
        after := after + "\n";
        assert before + b + after == u + "\n";
      }
    }
  }

  /** A newline at the end brings no marker. */
  lemma LineAdded(m: Marks, before: string, b: string, after: string)
    requires MarksOk(m) && Stands(before + b + after, m, before, b, after)
    ensures Stands(before + b + (after + "\n"), m, before, b, after + "\n")
  {
    hide OccursAt;
    var t, u := before + b + after, before + b + (after + "\n");
    assert u == t + "\n" && u == t + "\n" + "";
    forall j, x | 0 <= j <= |u| && (x == m.start || x == m.end) && OccursAt(u, x, j) ensures OccursAt(t, x, j) && j <= |t| {
      NotAcross(t, "", x, j);
      Bounds(u, x, j);
      InHead(t, "\n", x, j);
    }
    assert OccursAt(t, m.start, |before|) && OccursAt(t, m.end, |before| + |b| - |m.end|);
    Prefixed(t, "\n", m.start, |before|);
    Prefixed(t, "\n", m.end, |before| + |b| - |m.end|);
  }

  lemma Prefixed(a: string, b: string, m: string, i: int)
    requires OccursAt(a, m, i)
    ensures OccursAt(a + b, m, i)
  {
    forall k | 0 <= k < |m| ensures (a + b)[i + k] == m[k] {
      assert a[i + k] == m[k];
    }
  }

  lemma BlockIsLong(b: string, m: Marks)
    requires MarksOk(m) && IsBlock(b, m)
    ensures |b| >= |m.start| && |b| >= |m.end| && b != ""
  {}

  /** Extracting after an upsert returns the block, in a text without markers and in one that already
      had a block; all text outside the block is kept, up to one final newline. */
  lemma ExtractAfterUpsert(t: string, m: Marks, b: string)
    requires MarksOk(m) && IsBlock(b, m) && (NoMarks(t, m) || Extract(t, m).Block?)
    ensures
      var u := Upsert(t, m, b);
      && u.Some? && Extract(u.value, m).Block?
      && (var y := Extract(u.value, m);
          && u.value[y.from..y.to] == b
          && (Extract(t, m).Block? ==>
                var x := Extract(t, m);
                u.value[..y.from] == t[..x.from] && (u.value[y.to..] == t[x.to..] || u.value[y.to..] == t[x.to..] + "\n")))
  {
    hide Only, Upsert, NoMarks, IsBlock;
    BlockIsLong(b, m);
    var before, after := UpsertStands(t, m, b);
    ExtractStanding(Upsert(t, m, b).value, m, before, b, after);
    var u := Upsert(t, m, b).value;
    assert u[..|before|] == before && u[|before| + |b|..] == after;
  }

  /** Upsert is idempotent. */
  lemma UpsertTwice(t: string, m: Marks, b: string)
    requires MarksOk(m) && IsBlock(b, m) && (NoMarks(t, m) || Extract(t, m).Block?)
    ensures Upsert(t, m, b).Some? && Upsert(Upsert(t, m, b).value, m, b) == Upsert(t, m, b)
  {
    hide Only, NoMarks, ReplaceAll;
    BlockIsLong(b, m);
    var before, after := UpsertStands(t, m, b);
    var u := Upsert(t, m, b).value;
    ExtractStanding(u, m, before, b, after);
    assert OccursAt(b, m.start, 0) by { FrontOf(b, m); }
    ReplacesOnce(u, m, before, b, after, b);
  }

  lemma FrontOf(b: string, m: Marks)
    requires IsBlock(b, m)
    ensures OccursAt(b, m.start, 0)
  {}

  // ---------------------------------------------------------------- removing

  lemma {:induction false} RStripAppend(t: string, w: string)
    requires forall k :: 0 <= k < |w| ==> IsWhite(w[k])
    ensures RStrip(t + w) == RStrip(t)
    decreases |w|
  {
    if w == "" {
      assert t + w == t;
    } else {
      var n := |w| - 1;
      assert (t + w)[..|t + w| - 1] == t + w[..n] && (t + w)[|t + w| - 1] == w[n];
      RStripAppend(t, w[..n]);
    }
  }

  lemma {:induction false} LStripAppend(t: string, w: string)
    requires LStrip(t) != ""
    ensures LStrip(t + w) == LStrip(t) + w
    decreases |t|
  {
    assert (t + w)[0] == t[0] && (t + w)[1..] == t[1..] + w;
    if IsWhite(t[0]) {
      LStripAppend(t[1..], w);
    }
  }

  lemma {:induction false} AllSpace(t: string)
    ensures LStrip(t) == "" <==> forall k :: 0 <= k < |t| ==> IsWhite(t[k])
    ensures RStrip(t) == "" <==> forall k :: 0 <= k < |t| ==> IsWhite(t[k])
    decreases |t|
  {
    if t != "" {
      AllSpace(t[1..]);
      AllSpace(t[..|t| - 1]);
    }
  }

  lemma {:induction false} LStripFront(t: string)
    ensures LStrip(t) != "" ==> !IsWhite(LStrip(t)[0])
    decreases |t|
  {
    if t != "" && IsWhite(t[0]) {
      LStripFront(t[1..]);
    }
  }

  lemma StripBlank(t: string)
    ensures Strip(t) == "" <==> forall k :: 0 <= k < |t| ==> IsWhite(t[k])
  {
    AllSpace(t);
    AllSpace(LStrip(t));
    LStripFront(t);
  }

  /** White space at the end does not show after stripping. */
  lemma StripAppend(t: string, w: string)
    requires forall k :: 0 <= k < |w| ==> IsWhite(w[k])
    ensures Strip(t + w) == Strip(t)
  {
    AllSpace(t);
    if LStrip(t) == "" {
      AllSpace(t + w);
      assert forall k :: 0 <= k < |t + w| ==> IsWhite((t + w)[k]);
    } else {
      LStripAppend(t, w);
      RStripAppend(LStrip(t), w);
    }
  }

  lemma StripOfRStrip(t: string)
    ensures Strip(RStrip(t)) == Strip(t)
  {
    RStripPrefix(t);
    var w := t[|RStrip(t)|..];
    assert t == RStrip(t) + w;
    StripAppend(RStrip(t), w);
  }

  lemma StripIsStripped(t: string)
    requires Strip(t) != ""
    ensures Strip(Strip(t) + "\n") == Strip(t)
  {
    StripAppend(Strip(t), "\n");
    var s := Strip(t);
    RStripPrefix(LStrip(t));
    LStripFront(t);
    assert s[0] == LStrip(t)[0];
    assert LStrip(s) == s;
    RStripTwice(LStrip(t));
  }

  lemma {:induction false} RStripTwice(t: string)
    ensures RStrip(RStrip(t)) == RStrip(t)
    decreases |t|
  {
    if t != "" && IsWhite(t[|t| - 1]) {
      RStripTwice(t[..|t| - 1]);
    }
  }

  /** Removing after inserting gives the original back, up to white space around it: a text that was
      not blank is left with exactly its stripped content and a final newline; a file that held
      nothing else is deleted. */
  lemma RemoveAfterUpsert(t: string, m: Marks, b: string)
    requires MarksOk(m) && IsBlock(b, m) && NoMarks(t, m)
    ensures Upsert(t, m, b).Some?
    ensures Remove(Upsert(t, m, b).value, m) == if Strip(t) == "" then Unlinked else Rewritten(Strip(t) + "\n")
    ensures Strip(t) != "" ==> Strip(Strip(t) + "\n") == Strip(t)
  {
    hide Only, NoMarks, ReplaceAll, Upsert, IsBlock, OccursAt, LStrip, RStrip, Strip, IsWhite;
    BlockIsLong(b, m);
    var before, after := UpsertStands(t, m, b);
    var u := Upsert(t, m, b).value;
    ExtractStanding(u, m, before, b, after);
    FrontOf(b, m);
    ReplacesOnce(u, m, before, b, after, b);
    assert u[..|before|] == before && u[|before| + |b|..] == "\n";
    BlankNewline();
    if Strip(t) == "" {
      assert before + "\n" == "\n";
    } else {
      Surrounded(t);
      assert before + "\n" == RStrip(t) + "\n\n\n";
      StripIsStripped(t);
    }
  }

  lemma BlankNewline()
    ensures Strip("\n") == "" && Strip("") == ""
  {
    StripBlank("\n");
    StripBlank("");
  }

  lemma Surrounded(t: string)
    ensures Strip(RStrip(t) + "\n\n\n") == Strip(t)
  {
    StripAppend(RStrip(t), "\n\n\n");
    StripOfRStrip(t);
  }

  // ---------------------------------------------------------------- the file

  /** A managed text file; None when it does not exist. */
  class TextFile {
    var content: Option<string>

    constructor (content: Option<string>)
      ensures this.content == content
    {
      this.content := content;
    }

    method UpsertBlock(m: Marks, b: string) returns (ok: bool)
      modifies this
      ensures
        var t := if old(content).Some? then old(content).value else "";
        var u := Upsert(t, m, b);
        ok == u.Some? && content == if ok then u else old(content)
    {
      var existing := if content.Some? then content.value else "";
      var updated := Upsert(existing, m, b);
      ok := updated.Some?;
      if ok {
        content := updated;
      }
    }

    /** Some(true) when a block was removed, Some(false) when there was none, None on an error. */
    method RemoveBlock(m: Marks) returns (removed: Option<bool>)
      modifies this
      ensures old(content).None? ==> removed == Some(false) && content == None
      ensures old(content).Some? ==>
        match Remove(old(content).value, m)
        case Error => removed == None && content == old(content)
        case NotFound => removed == Some(false) && content == old(content)
        case Rewritten(text) => removed == Some(true) && content == Some(text)
        case Unlinked => removed == Some(true) && content == None
    {
      if content.None? {
        return Some(false);
      }
      match Remove(content.value, m) {
        case Error => return None;
        case NotFound => return Some(false);
        case Rewritten(text) =>
          content := Some(text);
          return Some(true);
        case Unlinked =>
          content := None;
          return Some(true);
      }
    }
  }
}
