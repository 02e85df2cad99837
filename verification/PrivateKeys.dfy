/** The private-key rule (src/sddgov/redaction.py), as a whole-text substitution and as the streaming
    redactor that sees one line at a time and keeps its state between lines.

    Both search for the same two markers, five dashes, a word, a dash-free label ending in
    PRIVATE KEY, five dashes, in any letter case. */
module PrivateKeys {
  import opened Common

  const BEGIN: string := "-----begin"
  const END: string := "-----end"
  const KEY: string := "private key"
  const DASHES: string := "-----"
  const REDACTED: string := "[REDACTED_PRIVATE_KEY]"
  const MAX_PRIVATE_KEY_MARKER_CHARACTERS: nat := 4096

  // ---------------------------------------------------------------- markers

  function Lower(c: char): char {
    if 'A' <= c <= 'Z' then (c as int - 'A' as int + 'a' as int) as char else c
  }

  /** Does `word`, given in lower case, stand at position i, in any case? */
  predicate HasAt(s: string, i: nat, word: string) {
    i + |word| <= |s| && forall k :: 0 <= k < |word| ==> Lower(s[i + k]) == word[k]
  }

  function NextDash(s: string, i: nat): (k: nat)
    requires i <= |s|
    ensures i <= k <= |s| && (k < |s| ==> s[k] == '-')
    ensures forall j :: i <= j < k ==> s[j] != '-'
    decreases |s| - i
  {
    if i == |s| || s[i] == '-' then i else NextDash(s, i + 1)
  }

  /** The length of the marker `s` starts with. */
  function MarkerAt(s: string, word: string): (n: Option<nat>)
    ensures n.Some? ==> 0 < n.value <= |s|
  {
    if !HasAt(s, 0, word + " ") then None else
      var from := |word| + 1;
      var k := NextDash(s, from);
      if k >= from + |KEY| && HasAt(s, k - |KEY|, KEY) && HasAt(s, k, DASHES) then Some(k + |DASHES|) else None
  }

  datatype Hit = Hit(start: nat, end: nat)

  /** pattern.search: the first marker with this word. */
  function Search(s: string, word: string): (r: Option<Hit>)
    ensures r.Some? ==> r.value.start < r.value.end <= |s|
  {
    if s == "" then None else
      var here := MarkerAt(s, word);
      if here.Some? then Some(Hit(0, here.value)) else
        var later := Search(s[1..], word);
        if later.None? then None else Some(Hit(later.value.start + 1, later.value.end + 1))
  }

  // ---------------------------------------------------------------- the whole-text rule

  datatype Cleaned = Cleaned(text: string, count: nat)

  /** pattern.subn of the private-key rule */
  function RedactAll(s: string): Cleaned
    decreases |s|
  {
    var begin := Search(s, BEGIN);
    if begin.None? then Cleaned(s, 0) else
      var body := s[begin.value.end..];
      var end := Search(body, END);
      if end.None? then Cleaned(s, 0) else
        var rest := RedactAll(body[end.value.end..]);
        Cleaned(s[..begin.value.start] + REDACTED + rest.text, 1 + rest.count)
  }

  // ---------------------------------------------------------------- the streaming rule

  datatype Held = Held(safe: string, fragment: string)

  /** The last place where `prefix` stands. */
  function LastPrefix(s: string, prefix: string): (r: Option<nat>)
    ensures r.Some? ==> r.value < |s| && HasAt(s, r.value, prefix)
  {
    if s == "" then None else
      var later := LastPrefix(s[1..], prefix);
      if later.Some? then Some(later.value + 1)
      else if prefix != "" && HasAt(s, 0, prefix) then Some(0) else None
  }

  function Chomp(s: string, c: char): string {
    if s != "" && s[|s| - 1] == c then s[..|s| - 1] else s
  }

  function Min(a: nat, b: nat): nat {
    if a <= b then a else b
  }

  /** The longest proper beginning of `literal`, at most `length`, that ends the line and is not a
      tail of a longer run of dashes. */
  function PartialMarker(line: string, literal: string, length: nat): (r: Option<nat>)
    requires length <= |line| && length <= |literal|
    ensures r.Some? ==> r.value < |line|
  {
    if length == 0 then None else
      var start := |line| - length;
      if HasAt(line, start, literal[..length]) && (start == 0 || line[start - 1] != '-') then Some(start)
      else PartialMarker(line, literal, length - 1)
  }

  /** _hold_incomplete_marker: keep back a beginning of a marker at the end of the text. */
  function HoldIncompleteMarker(text: string, prefix: string): Option<Held> {
    var line := Chomp(Chomp(text, '\n'), '\r');
    var marker := LastPrefix(text, prefix);
    var begin := PartialMarker(line, BEGIN, Min(|BEGIN| - 1, |line|));
    var held := if marker.Some? then marker
                else if begin.Some? then begin
                else PartialMarker(line, END, Min(|END| - 1, |line|));
    if held.None? then Some(Held(text, ""))
    else if marker.Some? && Contains(text[marker.value + |prefix|..], DASHES)
    then Some(Held(text, ""))
    else if |text| - held.value > MAX_PRIVATE_KEY_MARKER_CHARACTERS then None
    else Some(Held(text[..held.value], text[held.value..]))
  }

  /** What the redactor keeps between lines. */
  datatype Keeper = Keeper(inKey: bool, fragment: string, count: nat)

  datatype Step = Step(k: Keeper, out: string)

  function Emit(out: string, r: Option<Step>): Option<Step> {
    if r.None? then None else Some(Step(r.value.k, out + r.value.out))
  }

  /** The loop of _private_keys over what remains of a line. */
  function Scan(k: Keeper, remaining: string): Option<Step>
    decreases |remaining|
  {
    if remaining == "" then Some(Step(k, ""))
    else if k.inKey then
      var end := Search(remaining, END);
      if end.None? then
        var held := HoldIncompleteMarker(remaining, END);
        if held.None? then None else Some(Step(k.(fragment := held.value.fragment), ""))
      else Scan(k.(inKey := false), remaining[end.value.end..])
    else
      var begin := Search(remaining, BEGIN);
      if begin.None? then
        var held := HoldIncompleteMarker(remaining, BEGIN);
        if held.None? then None else Some(Step(k.(fragment := held.value.fragment), held.value.safe))
      else
        var out := remaining[..begin.value.start] + REDACTED;
        var body := remaining[begin.value.end..];
        var end := Search(body, END);
        var counted := k.(count := k.count + 1);
        if end.None? then Some(Step(counted.(inKey := true), out))
        else Emit(out, Scan(counted, body[end.value.end..]))
  }

  function TrimEnd(s: string): string {
    if s != "" && (s[|s| - 1] == '\n' || s[|s| - 1] == '\r') then TrimEnd(s[..|s| - 1]) else s
  }

  /** `word in s.lower()` */
  predicate Contains(s: string, word: string) {
    exists i :: 0 <= i <= |s| && HasAt(s, i, word)
  }

  /** Is `literal` a continuation of the first characters of `s`? */
  predicate Continues(s: string, literal: string) {
    forall k :: 0 <= k < |s| && k < |literal| ==> Lower(s[k]) == literal[k]
  }

  /** _private_keys: a fragment carried over a line end is a marker split across lines, which is
      refused, or harmless text. */
  function PrivateKeys(k: Keeper, text: string): Option<Step> {
    var carried := k.fragment;
    var empty := k.(fragment := "");
    if carried != "" && (carried[|carried| - 1] == '\n' || carried[|carried| - 1] == '\r') then
      var line := TrimEnd(carried);
      if Contains(line, BEGIN) || Contains(line, END) then Scan(empty, carried + text)
      else if Continues(line + text, BEGIN) || Continues(line + text, END) then None
      else Emit(carried, Scan(empty, text))
    else Scan(empty, carried + text)
  }

  /** Lines one after the other. */
  function Lines(k: Keeper, lines: seq<string>): Option<Step>
    decreases |lines|
  {
    if lines == [] then Some(Step(k, "")) else
      var first := PrivateKeys(k, lines[0]);
      if first.None? then None else Emit(first.value.out, Lines(first.value.k, lines[1..]))
  }

  const FRESH: Keeper := Keeper(false, "", 0)

  /** A whole file: all its lines, then `finish`, which refuses an open block. */
  function Stream(lines: seq<string>): Option<Cleaned> {
    var all := Lines(FRESH, lines);
    if all.None? || all.value.k.inKey then None
    else Some(Cleaned(all.value.out + all.value.k.fragment, all.value.k.count))
  }

  // ---------------------------------------------------------------- texts of dash-free text and whole markers

  /** A character that is not a dash, or a whole marker. */
  datatype Token = Plain(c: char) | Begin(raw: string) | End(raw: string)

  predicate IsMarker(raw: string, word: string) {
    MarkerAt(raw, word) == Some(|raw|)
  }

  predicate TokenOk(t: Token) {
    match t
    case Plain(c) => c != '-'
    case Begin(raw) => IsMarker(raw, BEGIN)
    case End(raw) => IsMarker(raw, END)
  }

  /** Blocks are not nested: a begin only outside, an end only inside. */
  predicate Bracketed(inKey: bool, ts: seq<Token>)
    decreases |ts|
  {
    ts == [] || (TokenOk(ts[0]) && (ts[0].Begin? ==> !inKey) && (ts[0].End? ==> inKey) && Bracketed(Inside(inKey, ts[0]), ts[1..]))
  }

  function Inside(inKey: bool, t: Token): bool {
    match t case Plain(_) => inKey case Begin(_) => true case End(_) => false
  }

  function InsideAfter(inKey: bool, ts: seq<Token>): bool
    decreases |ts|
  {
    if ts == [] then inKey else InsideAfter(Inside(inKey, ts[0]), ts[1..])
  }

  function TokenText(t: Token): string {
    match t case Plain(c) => [c] case Begin(raw) => raw case End(raw) => raw
  }

  function Render(ts: seq<Token>): string {
    if ts == [] then "" else TokenText(ts[0]) + Render(ts[1..])
  }

  /** What must come out: the text outside blocks, and one notice per block. */
  function Expected(inKey: bool, ts: seq<Token>): string
    decreases |ts|
  {
    if ts == [] then "" else
      (match ts[0] case Plain(c) => (if inKey then "" else [c]) case Begin(_) => REDACTED case End(_) => "")
      + Expected(Inside(inKey, ts[0]), ts[1..])
  }

  function Blocks(ts: seq<Token>): nat {
    if ts == [] then 0 else (if ts[0].Begin? then 1 else 0) + Blocks(ts[1..])
  }

  // ---------------------------------------------------------------- searching such texts

  lemma NotAMarker(s: string, word: string)
    requires s != "" && s[0] != '-' && (word == BEGIN || word == END)
    ensures MarkerAt(s, word).None?
  {
    assert (word + " ")[0] == '-';
  }

  lemma MarkerFirst(raw: string, rest: string, word: string)
    requires IsMarker(raw, word) && (word == BEGIN || word == END)
    ensures MarkerAt(raw + rest, word) == Some(|raw|)
  {
    hide HasAt, NextDash;
    var from := |word| + 1;
    var k := NextDash(raw, from);
    DashSame(raw, rest, from);
    StillHas(raw, rest, 0, word + " ");
    StillHas(raw, rest, k - |KEY|, KEY);
    StillHas(raw, rest, k, DASHES);
  }

  lemma StillHas(raw: string, rest: string, i: nat, word: string)
    requires HasAt(raw, i, word)
    ensures HasAt(raw + rest, i, word)
  {
    forall k | 0 <= k < |word| ensures Lower((raw + rest)[i + k]) == word[k] {
      assert Lower(raw[i + k]) == word[k];
    }
  }

  lemma {:induction false} DashSame(raw: string, rest: string, i: nat)
    requires i <= |raw| && NextDash(raw, i) < |raw|
    ensures NextDash(raw + rest, i) == NextDash(raw, i)
    decreases |raw| - i
  {
    assert (raw + rest)[i] == raw[i];
    if raw[i] != '-' {
      DashSame(raw, rest, i + 1);
    }
  }

  function Shift(n: nat, r: Option<Hit>): Option<Hit> {
    if r.None? then None else Some(Hit(r.value.start + n, r.value.end + n))
  }

  lemma {:induction false} SearchSkips(p: string, s: string, word: string)
    requires '-' !in p && (word == BEGIN || word == END)
    ensures Search(p + s, word) == Shift(|p|, Search(s, word))
    decreases |p|
  {
    hide MarkerAt;
    if p == "" {
      assert p + s == s;
    } else {
      assert (p + s)[0] == p[0] && (p + s)[1..] == p[1..] + s;
      NotAMarker(p + s, word);
      SearchSkips(p[1..], s, word);
    }
  }

  lemma SearchPlain(p: string, word: string)
    requires '-' !in p && (word == BEGIN || word == END)
    ensures Search(p, word).None?
  {
    SearchSkips(p, "", word);
    assert p + "" == p;
  }

  lemma SearchFinds(p: string, raw: string, rest: string, word: string)
    requires '-' !in p && (word == BEGIN || word == END) && IsMarker(raw, word)
    ensures Search(p + (raw + rest), word) == Some(Hit(|p|, |p| + |raw|))
  {
    hide MarkerAt;
    SearchSkips(p, raw + rest, word);
    MarkerFirst(raw, rest, word);
    assert raw != "" by { MarkerNotEmpty(raw, word); }
  }

  lemma MarkerNotEmpty(raw: string, word: string)
    requires IsMarker(raw, word)
    ensures raw != ""
  {}

  // ---------------------------------------------------------------- dash-free text is never held back

  lemma {:induction false} NoPrefix(s: string, prefix: string)
    requires '-' !in s && prefix != "" && prefix[0] == '-'
    ensures LastPrefix(s, prefix).None?
    decreases |s|
  {
    if s != "" {
      NoPrefix(s[1..], prefix);
      assert Lower(s[0 + 0]) != '-';
    }
  }

  lemma {:induction false} NoPartial(line: string, literal: string, length: nat)
    requires '-' !in line && length <= |line| && length <= |literal| && literal != "" && literal[0] == '-'
    ensures PartialMarker(line, literal, length).None?
    decreases length
  {
    if length > 0 {
      var start := |line| - length;
      assert literal[..length][0] == '-' && Lower(line[start + 0]) != '-';
      NoPartial(line, literal, length - 1);
    }
  }

  lemma NothingHeld(text: string, prefix: string)
    requires '-' !in text && (prefix == BEGIN || prefix == END)
    ensures HoldIncompleteMarker(text, prefix) == Some(Held(text, ""))
  {
    hide LastPrefix, PartialMarker, HasAt, Contains;
    var line := Chomp(Chomp(text, '\n'), '\r');
    assert '-' !in line;
    NoPrefix(text, prefix);
    NoPartial(line, BEGIN, Min(|BEGIN| - 1, |line|));
    NoPartial(line, END, Min(|END| - 1, |line|));
  }

  // ---------------------------------------------------------------- a run of plain characters

  /** Plain characters up to the first marker. */
  function PlainRun(ts: seq<Token>): (n: nat)
    ensures n <= |ts| && (n < |ts| ==> !ts[n].Plain?)
    ensures forall k :: 0 <= k < n ==> ts[k].Plain?
  {
    if ts == [] || !ts[0].Plain? then 0 else 1 + PlainRun(ts[1..])
  }

  predicate NoDashes(ts: seq<Token>) {
    forall k :: 0 <= k < |ts| && ts[k].Plain? ==> ts[k].c != '-'
  }

  lemma {:induction false} BracketedRest(ts: seq<Token>, inKey: bool)
    requires Bracketed(inKey, ts)
    ensures Bracketed(inKey, ts[PlainRun(ts)..])
    decreases |ts|
  {
    hide TokenOk;
    if PlainRun(ts) == 0 {
      assert ts[0..] == ts;
    } else {
      BracketedRest(ts[1..], inKey);
      assert ts[1..][PlainRun(ts) - 1..] == ts[PlainRun(ts)..];
    }
  }

  lemma {:induction false} TokensOk(ts: seq<Token>, inKey: bool, k: nat)
    requires Bracketed(inKey, ts) && k < |ts|
    ensures TokenOk(ts[k])
    decreases |ts|
  {
    hide TokenOk;
    if k > 0 {
      TokensOk(ts[1..], Inside(inKey, ts[0]), k - 1);
    }
  }

  lemma RunHasNoDashes(ts: seq<Token>, inKey: bool)
    requires Bracketed(inKey, ts)
    ensures NoDashes(ts[..PlainRun(ts)])
  {
    hide Bracketed, IsMarker;
    var run := ts[..PlainRun(ts)];
    forall k | 0 <= k < |run| && run[k].Plain? ensures run[k].c != '-' {
      TokensOk(ts, inKey, k);
    }
  }

  lemma {:induction false} RenderJoins(a: seq<Token>, b: seq<Token>)
    ensures Render(a + b) == Render(a) + Render(b)
    decreases |a|
  {
    if a == [] {
      assert a + b == b && "" + Render(b) == Render(b);
    } else {
      RenderJoins(a[1..], b);
      assert (a + b)[0] == a[0] && (a + b)[1..] == a[1..] + b;
      assert TokenText(a[0]) + (Render(a[1..]) + Render(b)) == (TokenText(a[0]) + Render(a[1..])) + Render(b);
    }
  }

  lemma {:induction false} PlainHasNoDash(ts: seq<Token>)
    requires NoDashes(ts) && forall k :: 0 <= k < |ts| ==> ts[k].Plain?
    ensures '-' !in Render(ts)
    decreases |ts|
  {
    if ts != [] {
      PlainHasNoDash(ts[1..]);
    }
  }

  lemma RenderPlain(ts: seq<Token>, inKey: bool)
    requires Bracketed(inKey, ts)
    ensures
      var n := PlainRun(ts);
      && Render(ts) == Render(ts[..n]) + Render(ts[n..]) && '-' !in Render(ts[..n])
      && Bracketed(inKey, ts[n..])
  {
    hide Render, Bracketed, NoDashes;
    var n := PlainRun(ts);
    BracketedRest(ts, inKey);
    RunHasNoDashes(ts, inKey);
    RenderJoins(ts[..n], ts[n..]);
    assert ts[..n] + ts[n..] == ts;
    PlainHasNoDash(ts[..n]);
  }

  lemma {:induction false} ExpectPlain(ts: seq<Token>, inKey: bool)
    ensures
      var n := PlainRun(ts);
      && Expected(inKey, ts) == (if inKey then "" else Render(ts[..n])) + Expected(inKey, ts[n..])
      && Blocks(ts) == Blocks(ts[n..]) && InsideAfter(inKey, ts) == InsideAfter(inKey, ts[n..])
    decreases |ts|
  {
    var n := PlainRun(ts);
    if n == 0 {
      assert ts[..0] == [] && ts[0..] == ts;
      assert "" + Expected(inKey, ts) == Expected(inKey, ts);
    } else {
      ExpectPlain(ts[1..], inKey);
      assert ts[1..][..n - 1] == ts[..n][1..] && ts[1..][n - 1..] == ts[n..];
      assert ts[..n][0] == ts[0];
      var rest := Expected(inKey, ts[n..]);
      assert [ts[0].c] + (Render(ts[..n][1..]) + rest) == ([ts[0].c] + Render(ts[..n][1..])) + rest;
    }
  }

  /** A marker at the front. */
  lemma AtMarker(ts: seq<Token>, inKey: bool)
    requires Bracketed(inKey, ts) && ts != [] && !ts[0].Plain?
    ensures Render(ts) == ts[0].raw + Render(ts[1..])
    ensures Bracketed(!inKey, ts[1..]) && InsideAfter(inKey, ts) == InsideAfter(!inKey, ts[1..])
    ensures inKey ==> ts[0].End? && IsMarker(ts[0].raw, END) && Blocks(ts) == Blocks(ts[1..])
                      && Expected(inKey, ts) == Expected(false, ts[1..])
    ensures !inKey ==> ts[0].Begin? && IsMarker(ts[0].raw, BEGIN) && Blocks(ts) == 1 + Blocks(ts[1..])
                       && Expected(inKey, ts) == REDACTED + Expected(true, ts[1..])
  {
    hide IsMarker;
    assert "" + Expected(false, ts[1..]) == Expected(false, ts[1..]);
  }

  // ---------------------------------------------------------------- the whole-text rule on such texts

  /** From an END marker, or the end of the text, onwards. */
  lemma AfterBody(ts: seq<Token>) returns (n: nat)
    requires Bracketed(true, ts)
    ensures n == PlainRun(ts) && (n < |ts| ==> ts[n].End? && IsMarker(ts[n].raw, END))
    ensures n == |ts| ==> Search(Render(ts), END).None? && '-' !in Render(ts)
    ensures n == |ts| ==> Expected(true, ts) == "" && Blocks(ts) == 0 && InsideAfter(true, ts)
    ensures n < |ts| ==>
      && Search(Render(ts), END).Some? && Render(ts)[Search(Render(ts), END).value.end..] == Render(ts[n + 1..])
      && Bracketed(false, ts[n + 1..])
      && Expected(true, ts) == Expected(false, ts[n + 1..]) && Blocks(ts) == Blocks(ts[n + 1..])
      && InsideAfter(true, ts) == InsideAfter(false, ts[n + 1..])
  {
    hide Search, IsMarker, Render, Expected, Bracketed, InsideAfter, Blocks;
    n := PlainRun(ts);
    RenderPlain(ts, true);
    ExpectPlain(ts, true);
    if n == |ts| {
      assert ts[..n] == ts && ts[n..] == [];
      NoTokens(true);
      SearchPlain(Render(ts), END);
    } else {
      assert ts[n..][0] == ts[n] && ts[n..][1..] == ts[n + 1..];
      AtMarker(ts[n..], true);
      var p, raw, rest := Render(ts[..n]), ts[n].raw, Render(ts[n + 1..]);
      SearchFinds(p, raw, rest, END);
      assert (p + (raw + rest))[|p| + |raw|..] == rest;
      assert "" + Expected(true, ts[n..]) == Expected(true, ts[n..]);
    }
  }

  /** ... and up to a BEGIN marker from outside. */
  lemma UpToBegin(ts: seq<Token>) returns (n: nat)
    requires Bracketed(false, ts)
    ensures n == PlainRun(ts)
    ensures n == |ts| ==> Search(Render(ts), BEGIN).None? && '-' !in Render(ts)
    ensures n == |ts| ==> Expected(false, ts) == Render(ts) && Blocks(ts) == 0 && !InsideAfter(false, ts)
    ensures n < |ts| ==>
      && Search(Render(ts), BEGIN).Some? && Search(Render(ts), BEGIN).value.start == |Render(ts[..n])|
      && Render(ts)[..|Render(ts[..n])|] == Render(ts[..n])
      && Render(ts)[Search(Render(ts), BEGIN).value.end..] == Render(ts[n + 1..])
      && Bracketed(true, ts[n + 1..])
      && Expected(false, ts) == Render(ts[..n]) + REDACTED + Expected(true, ts[n + 1..])
      && Blocks(ts) == 1 + Blocks(ts[n + 1..]) && InsideAfter(false, ts) == InsideAfter(true, ts[n + 1..])
  {
    hide Search, IsMarker, Render, Expected, Bracketed, InsideAfter, Blocks;
    n := PlainRun(ts);
    RenderPlain(ts, false);
    ExpectPlain(ts, false);
    if n == |ts| {
      assert ts[..n] == ts && ts[n..] == [];
      NoTokens(false);
      SearchPlain(Render(ts), BEGIN);
      assert Render(ts) + "" == Render(ts);
    } else {
      assert ts[n..][0] == ts[n] && ts[n..][1..] == ts[n + 1..];
      AtMarker(ts[n..], false);
      var p, raw, rest := Render(ts[..n]), ts[n].raw, Render(ts[n + 1..]);
      SearchFinds(p, raw, rest, BEGIN);
      assert (p + (raw + rest))[|p| + |raw|..] == rest && (p + (raw + rest))[..|p|] == p;
      assert p + (REDACTED + Expected(true, ts[n + 1..])) == p + REDACTED + Expected(true, ts[n + 1..]);
    }
  }

  /** The whole-text rule gives exactly the expected text and the number of blocks. */
  lemma {:induction false} BatchIsExpected(ts: seq<Token>)
    requires Bracketed(false, ts) && !InsideAfter(false, ts)
    ensures RedactAll(Render(ts)) == Cleaned(Expected(false, ts), Blocks(ts))
    decreases |ts|
  {
    hide Search, Render, Expected, Bracketed, InsideAfter, Blocks;
    var n := UpToBegin(ts);
    if n < |ts| {
      var body := ts[n + 1..];
      var m := AfterBody(body);
      if m < |body| {
        BatchIsExpected(body[m + 1..]);
      }
    }
  }

  // ---------------------------------------------------------------- the streaming rule on such texts

  /** One line, from any state without a fragment. */
  lemma {:induction false} LineIsExpected(k: Keeper, ts: seq<Token>)
    requires Bracketed(k.inKey, ts) && k.fragment == ""
    ensures Scan(k, Render(ts)) ==
            Some(Step(Keeper(InsideAfter(k.inKey, ts), "", k.count + Blocks(ts)), Expected(k.inKey, ts)))
    decreases |ts|
  {
    hide Search, Render, Expected, Bracketed, InsideAfter, Blocks, HoldIncompleteMarker;
    if Render(ts) == "" {
      EmptyLine(ts, k.inKey);
    } else if k.inKey {
      var n := AfterBody(ts);
      if n == |ts| {
        NothingHeld(Render(ts), END);
      } else {
        LineIsExpected(k.(inKey := false), ts[n + 1..]);
      }
    } else {
      var n := UpToBegin(ts);
      if n == |ts| {
        NothingHeld(Render(ts), BEGIN);
      } else {
        var body := ts[n + 1..];
        var m := AfterBody(body);
        if m < |body| {
          LineIsExpected(k.(count := k.count + 1), body[m + 1..]);
        } else {
          var out := Render(ts[..n]) + REDACTED;
          assert out + "" == out;
        }
      }
    }
  }

  lemma EmptyLine(ts: seq<Token>, inKey: bool)
    requires Render(ts) == "" && Bracketed(inKey, ts)
    ensures Expected(inKey, ts) == "" && Blocks(ts) == 0 && InsideAfter(inKey, ts) == inKey
  {
    if ts != [] && !ts[0].Plain? {
      MarkerNotEmpty(ts[0].raw, if ts[0].Begin? then BEGIN else END);
    }
  }

  function Flatten(lines: seq<seq<Token>>): seq<Token> {
    if lines == [] then [] else lines[0] + Flatten(lines[1..])
  }

  function RenderAll(lines: seq<seq<Token>>): seq<string> {
    seq(|lines|, k requires 0 <= k < |lines| => Render(lines[k]))
  }

  lemma {:induction false} Joins(inKey: bool, a: seq<Token>, b: seq<Token>)
    ensures Bracketed(inKey, a + b) <==> Bracketed(inKey, a) && Bracketed(InsideAfter(inKey, a), b)
    ensures InsideAfter(inKey, a + b) == InsideAfter(InsideAfter(inKey, a), b)
    ensures Expected(inKey, a + b) == Expected(inKey, a) + Expected(InsideAfter(inKey, a), b)
    ensures Blocks(a + b) == Blocks(a) + Blocks(b)
    decreases |a|
  {
    if a == [] {
      assert a + b == b;
      assert "" + Expected(inKey, b) == Expected(inKey, b);
    } else {
      assert (a + b)[0] == a[0] && (a + b)[1..] == a[1..] + b;
      Joins(Inside(inKey, a[0]), a[1..], b);
      var e := (match a[0] case Plain(c) => (if inKey then "" else [c]) case Begin(_) => REDACTED case End(_) => "");
      var i := Inside(inKey, a[0]);
      assert e + (Expected(i, a[1..]) + Expected(InsideAfter(i, a[1..]), b)) == (e + Expected(i, a[1..])) + Expected(InsideAfter(i, a[1..]), b);
    }
  }

  lemma {:induction false} LinesAreExpected(k: Keeper, lines: seq<seq<Token>>)
    requires Bracketed(k.inKey, Flatten(lines)) && k.fragment == ""
    ensures
      var ts := Flatten(lines);
      Lines(k, RenderAll(lines)) ==
        Some(Step(Keeper(InsideAfter(k.inKey, ts), "", k.count + Blocks(ts)), Expected(k.inKey, ts)))
    decreases |lines|
  {
    hide Scan, Render, Expected, Bracketed, InsideAfter, Blocks;
    if lines == [] {
      NoTokens(k.inKey);
    } else {
      Joins(k.inKey, lines[0], Flatten(lines[1..]));
      LineIsExpected(k, lines[0]);
      assert "" + Render(lines[0]) == Render(lines[0]);
      assert RenderAll(lines)[1..] == RenderAll(lines[1..]);
      LinesAreExpected(Keeper(InsideAfter(k.inKey, lines[0]), "", k.count + Blocks(lines[0])), lines[1..]);
    }
  }

  lemma NoTokens(inKey: bool)
    ensures InsideAfter(inKey, []) == inKey && Blocks([]) == 0 && Expected(inKey, []) == ""
  {}

  /** Streaming refines the whole-text rule: for every text of dash-free text and whole markers,
      however it is cut into lines, the streaming redactor's output and count are those of the
      whole-text rule; a block left open is refused at the end instead. */
  lemma StreamRefinesBatch(lines: seq<seq<Token>>)
    requires Bracketed(false, Flatten(lines))
    ensures
      var ts := Flatten(lines);
      if InsideAfter(false, ts) then Stream(RenderAll(lines)).None?
      else Stream(RenderAll(lines)) == Some(RedactAll(Render(ts)))
  {
    hide Lines, Render, Expected, Bracketed, InsideAfter, Blocks, RedactAll;
    LinesAreExpected(FRESH, lines);
    var ts := Flatten(lines);
    if !InsideAfter(false, ts) {
      BatchIsExpected(ts);
      assert Expected(false, ts) + "" == Expected(false, ts);
    }
  }

  // ---------------------------------------------------------------- no body character gets out

  /** The text with every body emptied. */
  function Mask(inKey: bool, ts: seq<Token>): seq<Token>
    decreases |ts|
  {
    if ts == [] then [] else
      (if inKey && ts[0].Plain? then [] else [ts[0]]) + Mask(Inside(inKey, ts[0]), ts[1..])
  }

  lemma {:induction false} BodiesDoNotShow(inKey: bool, ts: seq<Token>)
    ensures Expected(inKey, ts) == Expected(inKey, Mask(inKey, ts))
    decreases |ts|
  {
    if ts != [] {
      BodiesDoNotShow(Inside(inKey, ts[0]), ts[1..]);
      var rest := Mask(Inside(inKey, ts[0]), ts[1..]);
      if inKey && ts[0].Plain? {
        assert [] + rest == rest;
        assert "" + Expected(inKey, rest) == Expected(inKey, rest);
      } else {
        assert Mask(inKey, ts)[0] == ts[0] && Mask(inKey, ts)[1..] == rest;
      }
    }
  }

  /** Two texts that differ only inside blocks come out the same: the output says nothing about
      a key, whatever it was and however the text was cut. */
  lemma OutputHidesBodies(a: seq<seq<Token>>, b: seq<seq<Token>>)
    requires Bracketed(false, Flatten(a)) && Bracketed(false, Flatten(b))
    requires !InsideAfter(false, Flatten(a)) && !InsideAfter(false, Flatten(b))
    requires Mask(false, Flatten(a)) == Mask(false, Flatten(b))
    ensures Stream(RenderAll(a)).Some? && Stream(RenderAll(b)).Some?
    ensures Stream(RenderAll(a)).value.text == Stream(RenderAll(b)).value.text
  {
    hide Lines, Render, Expected, Bracketed, InsideAfter, Blocks, RedactAll, Mask;
    StreamRefinesBatch(a);
    StreamRefinesBatch(b);
    BatchIsExpected(Flatten(a));
    BatchIsExpected(Flatten(b));
    BodiesDoNotShow(false, Flatten(a));
    BodiesDoNotShow(false, Flatten(b));
  }

  // ---------------------------------------------------------------- the object

  class StreamingTextRedactor {
    var inPrivateKey: bool
    var markerFragment: string
    var count: nat

    constructor ()
      ensures State() == FRESH
    {
      inPrivateKey, markerFragment, count := false, "", 0;
    }

    function State(): Keeper
      reads this
    {
      Keeper(inPrivateKey, markerFragment, count)
    }

    /** _private_keys; None is a refusal, after which the redactor is not used again. */
    method RedactKeys(text: string) returns (out: Option<string>)
      modifies this
      ensures
        var step := PrivateKeys(old(State()), text);
        if step.None? then out.None? else out == Some(step.value.out) && State() == step.value.k
    {
      hide Search, HoldIncompleteMarker, Contains, Continues, TrimEnd, HasAt;
      var carried := markerFragment;
      markerFragment := "";
      var output, remaining := "", carried + text;
      if carried != "" && (carried[|carried| - 1] == '\n' || carried[|carried| - 1] == '\r') {
        var line := TrimEnd(carried);
        if !Contains(line, BEGIN) && !Contains(line, END) {
          if Continues(line + text, BEGIN) || Continues(line + text, END) {
            return None;
          }
          output, remaining := carried, text;
        }
      }
      ghost var alone := Scan(State(), remaining);
      assert alone.Some? ==> "" + alone.value.out == alone.value.out;
      out := RedactRemaining(output, remaining);
    }

    method RedactRemaining(emitted: string, text: string) returns (out: Option<string>)
      modifies this
      ensures
        var step := Emit(emitted, Scan(old(State()), text));
        if step.None? then out.None? else out == Some(step.value.out) && State() == step.value.k
    {
      hide Search, HoldIncompleteMarker;
      var output, remaining := emitted, text;
      while remaining != ""
        invariant Emit(emitted, Scan(old(State()), text)) == Emit(output, Scan(State(), remaining))
        decreases |remaining|
      {
        if inPrivateKey {
          var end := Search(remaining, END);
          if end.None? {
            var held := HoldIncompleteMarker(remaining, END);
            if held.None? {
              return None;
            }
            markerFragment := held.value.fragment;
            assert output + "" == output;
            return Some(output);
          }
          inPrivateKey := false;
          remaining := remaining[end.value.end..];
        } else {
          var begin := Search(remaining, BEGIN);
          if begin.None? {
            var held := HoldIncompleteMarker(remaining, BEGIN);
            if held.None? {
              return None;
            }
            markerFragment := held.value.fragment;
            return Some(output + held.value.safe);
          }
          var shown := remaining[..begin.value.start] + REDACTED;
          var body := remaining[begin.value.end..];
          var end := Search(body, END);
          count := count + 1;
          if end.None? {
            inPrivateKey := true;
            return Some(output + shown);
          }
          ghost var rest := Scan(State(), body[end.value.end..]);
          assert rest.Some? ==> output + (shown + rest.value.out) == (output + shown) + rest.value.out;
          output, remaining := output + shown, body[end.value.end..];
        }
      }
      assert output + "" == output;
      return Some(output);
    }
  }
}
