/** The private-key stage on whole logical lines (src/sddgov/redaction.py), with dashes anywhere: as
    long as no line leaves a marker unfinished, streaming is the whole-text substitution. */
module KeyLines {
  import opened Common
  import opened Keys = PrivateKeys

  predicate IsWord(word: string) {
    word == BEGIN || word == END
  }

  predicate EndsLine(s: string) {
    s != "" && s[|s| - 1] == '\n'
  }

  // ---------------------------------------------------------------- markers do not cross a finished line

  /** After every place before `n` where the word stands there is a dash. */
  predicate Guarded(s: string, word: string, n: nat) {
    forall i :: 0 <= i < n && HasAt(s, i, word) ==> DashAfter(s, i + |word|)
  }

  predicate DashAfter(s: string, from: nat) {
    exists j :: from <= j < |s| && s[j] == '-'
  }

  lemma MarkerStays(r: string, s: string, word: string)
    requires MarkerAt(r, word).Some?
    ensures MarkerAt(r + s, word) == MarkerAt(r, word)
  {
    hide HasAt, NextDash;
    var from := |word| + 1;
    var k := NextDash(r, from);
    StillHas(r, s, 0, word + " ");
    HasLength(r, k, DASHES);
    DashSame(r, s, from);
    StillHas(r, s, k - |KEY|, KEY);
    StillHas(r, s, k, DASHES);
  }

  lemma HasLength(s: string, i: nat, word: string)
    requires HasAt(s, i, word)
    ensures i + |word| <= |s|
  {}

  /** What stands in `r + s` and ends within `r` stands in `r`. */
  lemma HadAt(r: string, s: string, i: nat, word: string)
    requires HasAt(r + s, i, word) && i + |word| <= |r|
    ensures HasAt(r, i, word)
  {
    forall k | 0 <= k < |word| ensures Lower(r[i + k]) == word[k] {
      assert Lower((r + s)[i + k]) == word[k];
    }
  }

  lemma LetterAt(s: string, i: nat, word: string, k: nat)
    requires HasAt(s, i, word) && k < |word|
    ensures i + k < |s| && Lower(s[i + k]) in word
  {
    assert Lower(s[i + k]) == word[k];
  }

  /** A word without a newline does not reach over the end of a line. */
  lemma StopsAtNewline(r: string, s: string, i: nat, word: string)
    requires EndsLine(r) && i < |r| && '\n' !in word && HasAt(r + s, i, word)
    ensures i + |word| < |r|
  {
    hide HasAt;
    if i + |word| >= |r| {
      LetterAt(r + s, i, word, |r| - 1 - i);
    }
  }

  lemma NoCross(r: string, s: string, word: string)
    requires IsWord(word) && EndsLine(r) && MarkerAt(r, word).None? && Guarded(r, word, 1)
    ensures MarkerAt(r + s, word).None?
  {
    hide HasAt, NextDash, Guarded;
    if MarkerAt(r + s, word).Some? {
      var from := |word| + 1;
      var k := NextDash(r + s, from);
      assert '\n' !in word + " " && '\n' !in DASHES;
      StopsAtNewline(r, s, 0, word + " ");
      HadAt(r, s, 0, word + " ");
      WordOfSpaced(r, word);
      NextDashIn(r, s, word);
      StopsAtNewline(r, s, k, DASHES);
      HadAt(r, s, k, DASHES);
      HadAt(r, s, k - |KEY|, KEY);
    }
  }

  lemma WordOfSpaced(r: string, word: string)
    requires HasAt(r, 0, word + " ")
    ensures HasAt(r, 0, word) && |r| > |word| && r[|word|] == ' '
  {
    forall k | 0 <= k < |word| ensures Lower(r[0 + k]) == word[k] {
      assert Lower(r[0 + k]) == (word + " ")[k];
    }
    assert Lower(r[0 + |word|]) == (word + " ")[|word|];
  }

  lemma NextDashIn(r: string, s: string, word: string)
    requires HasAt(r, 0, word) && Guarded(r, word, 1) && |r| > |word| && r[|word|] == ' '
    ensures NextDash(r + s, |word| + 1) == NextDash(r, |word| + 1) < |r|
  {
    assert DashAfter(r, 0 + |word|);
    var j :| |word| <= j < |r| && r[j] == '-';
    assert NextDash(r, |word| + 1) <= j;
    DashSame(r, s, |word| + 1);
  }

  /** Searching a line and what follows it: the first marker of the line, or the first after it. */
  lemma {:induction false} SearchOn(r: string, s: string, word: string, n: nat)
    requires IsWord(word) && (r == "" || EndsLine(r)) && n <= |r| && Guarded(r, word, n)
    requires if Search(r, word).None? then n == |r| else Search(r, word).value.start <= n
    ensures Search(r + s, word) == if Search(r, word).Some? then Search(r, word) else Shift(|r|, Search(s, word))
    decreases |r|
  {
    hide MarkerAt, HasAt;
    if r == "" {
      assert r + s == s;
    } else if MarkerAt(r, word).Some? {
      MarkerStays(r, s, word);
    } else {
      assert (r + s)[1..] == r[1..] + s;
      NoCross(r, s, word);
      GuardedRest(r, word, n);
      SearchOn(r[1..], s, word, n - 1);
    }
  }

  lemma GuardedRest(r: string, word: string, n: nat)
    requires r != "" && 0 < n && Guarded(r, word, n)
    ensures Guarded(r[1..], word, n - 1)
    ensures Guarded(r, word, 1)
  {
    forall i | 0 <= i < n - 1 && HasAt(r[1..], i, word) ensures DashAfter(r[1..], i + |word|) {
      HasAtRest(r, i, word);
      assert DashAfter(r, i + 1 + |word|);
      var j :| i + 1 + |word| <= j < |r| && r[j] == '-';
      assert r[1..][j - 1] == '-';
    }
  }

  lemma HasAtRest(r: string, i: nat, word: string)
    requires r != ""
    ensures HasAt(r[1..], i, word) <==> HasAt(r, i + 1, word)
  {
    if HasAt(r[1..], i, word) {
      forall k | 0 <= k < |word| ensures Lower(r[i + 1 + k]) == word[k] {
        assert Lower(r[1..][i + k]) == word[k];
      }
    }
    if HasAt(r, i + 1, word) {
      forall k | 0 <= k < |word| ensures Lower(r[1..][i + k]) == word[k] {
        assert Lower(r[i + 1 + k]) == word[k];
      }
    }
  }

  /** Before the first marker every word is followed by a dash: the marker's last one. */
  lemma {:induction false} FoundGuards(r: string, word: string)
    requires IsWord(word) && Search(r, word).Some?
    ensures var hit := Search(r, word).value; hit.start + |word| < hit.end && r[hit.end - 1] == '-'
    decreases |r|
  {
    if MarkerAt(r, word).Some? {
      var k := NextDash(r, |word| + 1);
      assert Lower(r[k + 4]) == DASHES[4];
    } else {
      FoundGuards(r[1..], word);
    }
  }

  lemma {:induction false} LastIsLast(s: string, word: string)
    requires word != ""
    ensures forall i :: 0 <= i && HasAt(s, i, word) ==> LastPrefix(s, word).Some? && i <= LastPrefix(s, word).value
    decreases |s|
  {
    if s != "" {
      LastIsLast(s[1..], word);
      forall i | 0 <= i && HasAt(s, i, word) ensures LastPrefix(s, word).Some? && i <= LastPrefix(s, word).value {
        if i > 0 {
          HasAtRest(s, i - 1, word);
        }
      }
    }
  }

  /** Nothing to hold back: no marker, and none begun. */
  predicate Finished(s: string, word: string) {
    Search(s, word).None? && HoldIncompleteMarker(s, word) == Some(Held(s, ""))
  }

  lemma FinishedGuards(s: string, word: string)
    requires IsWord(word) && Finished(s, word)
    ensures Guarded(s, word, |s|)
  {
    hide PartialMarker, Chomp;
    LastIsLast(s, word);
    forall i | 0 <= i < |s| && HasAt(s, i, word) ensures DashAfter(s, i + |word|) {
      var m := LastPrefix(s, word).value;
      assert Contains(s[m + |word|..], DASHES) by {
        assert s[m..] != "";
      }
      DashIn(s, m + |word|);
      assert DashAfter(s, m + |word|);
    }
  }

  lemma DashIn(s: string, from: nat)
    requires from <= |s| && Contains(s[from..], DASHES)
    ensures DashAfter(s, from)
  {
    var i :| 0 <= i <= |s[from..]| && HasAt(s[from..], i, DASHES);
    assert Lower(s[from..][i + 0]) == DASHES[0];
    assert s[from + i] == '-';
  }

  /** The first marker of a line is the first of the line and what follows. */
  lemma SearchFirst(r: string, s: string, word: string)
    requires IsWord(word) && (r == "" || EndsLine(r)) && Search(r, word).Some?
    ensures Search(r + s, word) == Search(r, word)
  {
    hide MarkerAt, Search;
    FoundGuards(r, word);
    var hit := Search(r, word).value;
    forall i | 0 <= i < hit.start && HasAt(r, i, word) ensures DashAfter(r, i + |word|) {
      assert r[hit.end - 1] == '-';
    }
    SearchOn(r, s, word, hit.start);
  }

  lemma SearchBeyond(r: string, s: string, word: string)
    requires IsWord(word) && (r == "" || EndsLine(r)) && Finished(r, word)
    ensures Search(r + s, word) == Shift(|r|, Search(s, word))
  {
    FinishedGuards(r, word);
    hide Search, HoldIncompleteMarker;
    SearchOn(r, s, word, |r|);
  }

  // ---------------------------------------------------------------- one line from either state

  /** The whole-text substitution from inside or outside a block; None if a block stays open. */
  function Whole(inKey: bool, s: string): Option<Cleaned>
    decreases |s|
  {
    if inKey then
      var end := Search(s, END);
      if end.None? then None else Whole(false, s[end.value.end..])
    else
      var begin := Search(s, BEGIN);
      if begin.None? then Some(Cleaned(s, 0))
      else Noted(s[..begin.value.start] + REDACTED, 1, Whole(true, s[begin.value.end..]))
  }

  function Noted(out: string, n: nat, r: Option<Cleaned>): Option<Cleaned> {
    if r.None? then None else Some(Cleaned(out + r.value.text, n + r.value.count))
  }

  lemma {:induction false} WholeIsBatch(s: string)
    requires Whole(false, s).Some?
    ensures Whole(false, s) == Some(RedactAll(s))
    decreases |s|
  {
    hide Search;
    var begin := Search(s, BEGIN);
    if begin.Some? {
      var body := s[begin.value.end..];
      var end := Search(body, END);
      WholeIsBatch(body[end.value.end..]);
    }
  }

  /** A line that finishes the markers it begins: where the redactor would ask whether to hold
      something back, there is nothing. */
  predicate Tidy(inKey: bool, r: string)
    decreases |r|
  {
    if inKey then
      var end := Search(r, END);
      if end.None? then Finished(r, END) else Tidy(false, r[end.value.end..])
    else
      var begin := Search(r, BEGIN);
      if begin.None? then Finished(r, BEGIN) else Tidy(true, r[begin.value.end..])
  }

  /** Is a block open after the line? */
  function Opens(inKey: bool, r: string): bool
    decreases |r|
  {
    if inKey then
      var end := Search(r, END);
      if end.None? then true else Opens(false, r[end.value.end..])
    else
      var begin := Search(r, BEGIN);
      if begin.None? then false else Opens(true, r[begin.value.end..])
  }

  /** What the line lets out, and how many notices it holds. */
  function Let(inKey: bool, r: string): Cleaned
    decreases |r|
  {
    if inKey then
      var end := Search(r, END);
      if end.None? then Cleaned("", 0) else Let(false, r[end.value.end..])
    else
      var begin := Search(r, BEGIN);
      if begin.None? then Cleaned(r, 0) else
        var rest := Let(true, r[begin.value.end..]);
        Cleaned(r[..begin.value.start] + REDACTED + rest.text, 1 + rest.count)
  }

  lemma {:induction false} TidyScan(k: Keeper, r: string)
    requires k.fragment == "" && Tidy(k.inKey, r)
    ensures Scan(k, r) == Some(Step(Keeper(Opens(k.inKey, r), "", k.count + Let(k.inKey, r).count), Let(k.inKey, r).text))
    decreases |r|
  {
    hide Search, HoldIncompleteMarker;
    if r == "" {
      NothingFound();
    } else if k.inKey {
      var end := Search(r, END);
      if end.Some? {
        TidyScan(k.(inKey := false), r[end.value.end..]);
      }
    } else {
      var begin := Search(r, BEGIN);
      if begin.Some? {
        var body := r[begin.value.end..];
        var end := Search(body, END);
        var out := r[..begin.value.start] + REDACTED;
        assert Let(false, r) == Cleaned(out + Let(true, body).text, 1 + Let(true, body).count);
        if end.Some? {
          TidyScan(k.(count := k.count + 1), body[end.value.end..]);
          assert Let(true, body) == Let(false, body[end.value.end..]) && Opens(true, body) == Opens(false, body[end.value.end..]);
        } else {
          assert out + "" == out;
        }
      }
    }
  }

  lemma NothingFound()
    ensures Search("", BEGIN).None? && Search("", END).None?
  {}

  /** A line and what follows it: what the line lets out, then the rest from the state it leaves. */
  lemma {:induction false} TidyThenRest(inKey: bool, r: string, s: string)
    requires (r == "" || EndsLine(r)) && Tidy(inKey, r)
    ensures Whole(inKey, r + s) == Noted(Let(inKey, r).text, Let(inKey, r).count, Whole(Opens(inKey, r), s))
    decreases |r|
  {
    hide Search, HoldIncompleteMarker;
    if inKey {
      var end := Search(r, END);
      if end.None? {
        SearchBeyond(r, s, END);
        assert Search(s, END).Some? ==> (r + s)[|r| + Search(s, END).value.end..] == s[Search(s, END).value.end..];
        NotedNothing(Whole(true, s));
      } else {
        SearchFirst(r, s, END);
        var rest := r[end.value.end..];
        RestEndsLine(r, END);
        assert (r + s)[end.value.end..] == rest + s;
        TidyThenRest(false, rest, s);
      }
    } else {
      var begin := Search(r, BEGIN);
      if begin.None? {
        SearchBeyond(r, s, BEGIN);
        PlainThenRest(r, s);
      } else {
        SearchFirst(r, s, BEGIN);
        var rest := r[begin.value.end..];
        RestEndsLine(r, BEGIN);
        assert (r + s)[begin.value.end..] == rest + s && (r + s)[..begin.value.start] == r[..begin.value.start];
        TidyThenRest(true, rest, s);
        NotedTwice(r[..begin.value.start] + REDACTED, 1, Let(true, rest).text, Let(true, rest).count, Whole(Opens(true, rest), s));
      }
    }
  }

  lemma NotedNothing(r: Option<Cleaned>)
    ensures Noted("", 0, r) == r
  {
    if r.Some? {
      assert "" + r.value.text == r.value.text;
    }
  }

  lemma NotedTwice(a: string, m: nat, b: string, n: nat, r: Option<Cleaned>)
    ensures Noted(a, m, Noted(b, n, r)) == Noted(a + b, m + n, r)
  {
    if r.Some? {
      assert a + (b + r.value.text) == a + b + r.value.text;
    }
  }

  lemma PlainThenRest(r: string, s: string)
    requires Search(r + s, BEGIN) == Shift(|r|, Search(s, BEGIN))
    ensures Whole(false, r + s) == Noted(r, 0, Whole(false, s))
  {
    hide Search, Whole, Noted, REDACTED, BEGIN;
    WholeOutside(s);
    if Search(s, BEGIN).None? {
      WholeOutside(r + s);
      NotedPlain(r, s);
    } else {
      var hit := Search(s, BEGIN).value;
      OutsideBeyond(r, s, hit);
      NotedTwice(r, 0, s[..hit.start] + REDACTED, 1, Whole(true, s[hit.end..]));
    }
  }

  lemma OutsideBeyond(r: string, s: string, hit: Hit)
    requires Search(r + s, BEGIN) == Some(Hit(|r| + hit.start, |r| + hit.end)) && hit.start <= hit.end <= |s|
    ensures Whole(false, r + s) == Noted(r + (s[..hit.start] + REDACTED), 1, Whole(true, s[hit.end..]))
  {
    hide Search, Whole, Noted, REDACTED, BEGIN;
    var t, pre, post := r + s, s[..hit.start], s[hit.end..];
    assert t[..|r| + hit.start] == r + pre by { UpToBeyond(r, s, hit.start); }
    assert t[|r| + hit.end..] == post by { FromBeyond(r, s, hit.end); }
    OutsideIs(t, r + pre, post, Hit(|r| + hit.start, |r| + hit.end));
    AppendThree(r, pre, REDACTED);
  }

  lemma OutsideIs(t: string, pre: string, post: string, hit: Hit)
    requires Search(t, BEGIN) == Some(hit) && t[..hit.start] == pre && t[hit.end..] == post
    ensures Whole(false, t) == Noted(pre + REDACTED, 1, Whole(true, post))
  {
    hide Search, Whole, Noted, REDACTED, BEGIN;
    WholeOutside(t);
  }

  lemma NotedPlain(r: string, s: string)
    ensures Noted(r, 0, Some(Cleaned(s, 0))) == Some(Cleaned(r + s, 0))
  {}

  lemma FromBeyond(r: string, s: string, n: nat)
    requires n <= |s|
    ensures (r + s)[|r| + n..] == s[n..]
  {}

  lemma UpToBeyond(r: string, s: string, n: nat)
    requires n <= |s|
    ensures (r + s)[..|r| + n] == r + s[..n]
  {}

  lemma AppendThree(a: string, b: string, c: string)
    ensures (a + b) + c == a + (b + c)
  {}

  lemma WholeOutside(s: string)
    ensures
      var begin := Search(s, BEGIN);
      Whole(false, s) == if begin.None? then Some(Cleaned(s, 0))
                         else Noted(s[..begin.value.start] + REDACTED, 1, Whole(true, s[begin.value.end..]))
  {
    hide Search;
  }

  /** A marker ends in a dash, so something of the line is left after it. */
  lemma RestEndsLine(r: string, word: string)
    requires IsWord(word) && (r == "" || EndsLine(r)) && Search(r, word).Some?
    ensures EndsLine(r[Search(r, word).value.end..])
  {
    FoundGuards(r, word);
  }

  // ---------------------------------------------------------------- all the lines

  function Concat(pieces: seq<string>): string {
    if pieces == [] then "" else pieces[0] + Concat(pieces[1..])
  }

  /** Logical lines, each but the last ended, and each tidy. */
  predicate TidyLines(inKey: bool, lines: seq<string>)
    decreases |lines|
  {
    lines == []
    || (Tidy(inKey, lines[0]) && (|lines| > 1 ==> EndsLine(lines[0])) && TidyLines(Opens(inKey, lines[0]), lines[1..]))
  }

  lemma TidyKeys(k: Keeper, r: string)
    requires k.fragment == "" && Tidy(k.inKey, r)
    ensures PrivateKeys(k, r)
         == Some(Step(Keeper(Opens(k.inKey, r), "", k.count + Let(k.inKey, r).count), Let(k.inKey, r).text))
  {
    hide Search, Scan, Tidy;
    TidyScan(k, r);
    assert "" + r == r && k.(fragment := "") == k;
  }

  lemma {:induction false} LinesAreWhole(k: Keeper, lines: seq<string>)
    requires k.fragment == "" && TidyLines(k.inKey, lines)
    ensures
      var all := Lines(k, lines);
      && all.Some? && all.value.k.fragment == "" && all.value.k.count >= k.count
      && Whole(k.inKey, Concat(lines)) ==
         if all.value.k.inKey then None else Some(Cleaned(all.value.out, all.value.k.count - k.count))
    decreases |lines|
  {
    hide Tidy, Search, PrivateKeys, Let, Opens;
    if lines == [] {
      NothingFound();
    } else {
      var line := lines[0];
      TidyKeys(k, line);
      var k1 := Keeper(Opens(k.inKey, line), "", k.count + Let(k.inKey, line).count);
      LinesAreWhole(k1, lines[1..]);
      if |lines| > 1 {
        TidyThenRest(k.inKey, line, Concat(lines[1..]));
      } else {
        assert lines[1..] == [] && line + "" == line;
        LastLine(k.inKey, line);
        assert Let(k.inKey, line).text + "" == Let(k.inKey, line).text;
      }
    }
  }

  /** The last line need not be ended: nothing follows it. */
  lemma {:induction false} LastLine(inKey: bool, r: string)
    requires Tidy(inKey, r)
    ensures Whole(inKey, r) == if Opens(inKey, r) then None else Some(Let(inKey, r))
    decreases |r|
  {
    hide Search, Finished;
    if inKey {
      var end := Search(r, END);
      if end.Some? {
        LastLine(false, r[end.value.end..]);
      }
    } else {
      var begin := Search(r, BEGIN);
      if begin.Some? {
        LastLine(true, r[begin.value.end..]);
      }
    }
  }

  /** On tidy lines streaming is the whole-text substitution, dashes and all; a block left open, which
      the substitution lets stand, is refused. */
  lemma TidyRefinesBatch(lines: seq<string>)
    requires TidyLines(false, lines)
    ensures Stream(lines) == Whole(false, Concat(lines))
    ensures Stream(lines).Some? ==> Stream(lines) == Some(RedactAll(Concat(lines)))
  {
    hide TidyLines, Lines, Whole, RedactAll;
    LinesAreWhole(FRESH, lines);
    var all := Lines(FRESH, lines).value;
    assert all.out + "" == all.out;
    if Stream(lines).Some? {
      WholeIsBatch(Concat(lines));
    }
  }
}
