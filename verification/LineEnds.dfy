/** Two rules of the redactor together (src/sddgov/redaction.py): private keys, then blanks at the
    end of a line. The verifier applies them to a whole text; the streaming redactor applies the
    second to each piece the first lets out, and a piece need not end where a line does. */
module LineEnds {
  import opened Common
  import opened Keys = PrivateKeys
  import opened KeyLines

  // ---------------------------------------------------------------- the trailing-whitespace rule

  predicate IsBlank(c: char) {
    c == ' ' || c == '\t'
  }

  /** How many blanks a text starts with. */
  function Blanks(s: string): (n: nat)
    ensures n <= |s| && (n < |s| ==> !IsBlank(s[n]))
    ensures forall j :: 0 <= j < n ==> IsBlank(s[j])
  {
    if s == "" || !IsBlank(s[0]) then 0 else 1 + Blanks(s[1..])
  }

  /** Is the end of a line next, with or without a carriage return? */
  predicate LineEndsNext(s: string) {
    s == "" || s[0] == '\n' || (s[0] == '\r' && (|s| == 1 || s[1] == '\n'))
  }

  /** pattern.subn of the trailing-whitespace rule */
  function Trim(s: string): Cleaned
    decreases |s|
  {
    if s == "" then Cleaned("", 0)
    else if !IsBlank(s[0]) then
      var rest := Trim(s[1..]);
      Cleaned([s[0]] + rest.text, rest.count)
    else
      var n := Blanks(s);
      var rest := Trim(s[n..]);
      if LineEndsNext(s[n..]) then Cleaned(rest.text, rest.count + 1) else Cleaned(s[..n] + rest.text, rest.count)
  }

  lemma TrimNothing()
    ensures Trim("") == Cleaned("", 0)
  {}

  lemma TrimPlain(s: string)
    requires s != "" && !IsBlank(s[0])
    ensures Trim(s) == Cleaned([s[0]] + Trim(s[1..]).text, Trim(s[1..]).count)
  {}

  /** Leading blanks before a trimmed rest: gone and counted at the end of a line, kept elsewhere. */
  function Led(blanks: string, atEnd: bool, rest: Cleaned): Cleaned {
    if atEnd then Cleaned(rest.text, rest.count + 1) else Cleaned(blanks + rest.text, rest.count)
  }

  lemma TrimBlanks(s: string)
    requires s != "" && IsBlank(s[0])
    ensures var n := Blanks(s); Trim(s) == Led(s[..n], LineEndsNext(s[n..]), Trim(s[n..]))
  {}

  // ---------------------------------------------------------------- one cut

  predicate EndsBlank(s: string) {
    s != "" && IsBlank(s[|s| - 1])
  }

  predicate EndsBlankReturn(s: string) {
    |s| >= 2 && s[|s| - 1] == '\r' && IsBlank(s[|s| - 2])
  }

  /** A cut that does not make blanks look like the end of a line. */
  predicate CleanCut(a: string, b: string) {
    (EndsBlank(a) ==> LineEndsNext(b)) && (EndsBlankReturn(a) ==> b == "" || b[0] == '\n')
  }

  function Plus(a: Cleaned, b: Cleaned): Cleaned {
    Cleaned(a.text + b.text, a.count + b.count)
  }

  lemma {:induction false} BlanksOf(a: string, b: string)
    ensures Blanks(a + b) == if Blanks(a) < |a| then Blanks(a) else |a| + Blanks(b)
    decreases |a|
  {
    if a == "" {
      assert a + b == b;
    } else {
      assert (a + b)[0] == a[0] && (a + b)[1..] == a[1..] + b;
      if IsBlank(a[0]) {
        BlanksOf(a[1..], b);
      }
    }
  }

  /** Trimming two pieces is trimming the whole at a clean cut, and counts more at any other. */
  lemma {:induction false} CutIff(a: string, b: string)
    ensures CleanCut(a, b) ==> Plus(Trim(a), Trim(b)) == Trim(a + b)
    ensures !CleanCut(a, b) ==> Trim(a).count + Trim(b).count > Trim(a + b).count
    decreases |a|
  {
    if a == "" {
      assert a + b == b;
      assert Plus(Trim(a), Trim(b)) == Trim(b);
    } else if !IsBlank(a[0]) {
      CutAfterPlain(a, b);
    } else if Blanks(a) == |a| {
      CutInBlanks(a, b);
    } else {
      CutAfterBlanks(a, b);
    }
  }

  lemma {:induction false} CutAfterPlain(a: string, b: string)
    requires a != "" && !IsBlank(a[0])
    ensures CleanCut(a, b) ==> Plus(Trim(a), Trim(b)) == Trim(a + b)
    ensures !CleanCut(a, b) ==> Trim(a).count + Trim(b).count > Trim(a + b).count
    decreases |a|, 0
  {
    hide Trim;
    assert (a + b)[0] == a[0] && (a + b)[1..] == a[1..] + b;
    TrimPlain(a);
    TrimPlain(a + b);
    CutIff(a[1..], b);
    assert CleanCut(a, b) <==> CleanCut(a[1..], b);
    assert [a[0]] + (Trim(a[1..]).text + Trim(b).text) == [a[0]] + Trim(a[1..]).text + Trim(b).text;
  }

  lemma CutInBlanks(a: string, b: string)
    requires a != "" && Blanks(a) == |a|
    ensures CleanCut(a, b) ==> Plus(Trim(a), Trim(b)) == Trim(a + b)
    ensures !CleanCut(a, b) ==> Trim(a).count + Trim(b).count > Trim(a + b).count
  {
    hide Trim, Blanks;
    BlanksOf(a, b);
    assert IsBlank(a[0]) && IsBlank(a[|a| - 1]) && (a + b)[0] == a[0];
    TrimNothing();
    TrimBlanks(a);
    assert a[|a|..] == "" && Trim(a) == Cleaned("", 1);
    TrimBlanks(a + b);
    if b != "" && IsBlank(b[0]) {
      TrimBlanks(b);
    }
    var m := Blanks(b);
    assert (a + b)[|a| + m..] == b[m..];
    assert m == 0 ==> b[m..] == b;
    assert "" + Trim(b).text == Trim(b).text;
  }

  lemma {:induction false} CutAfterBlanks(a: string, b: string)
    requires a != "" && IsBlank(a[0]) && Blanks(a) < |a|
    ensures CleanCut(a, b) ==> Plus(Trim(a), Trim(b)) == Trim(a + b)
    ensures !CleanCut(a, b) ==> Trim(a).count + Trim(b).count > Trim(a + b).count
    decreases |a|, 0
  {
    hide Trim, Blanks, CleanCut, LineEndsNext, Led;
    var n := Blanks(a);
    var rest := a[n..];
    BothLed(a, b);
    SameCut(a, b, n);
    CutIff(rest, b);
    LedPlus(a[..n], LineEndsNext(rest), Trim(rest), Trim(b));
    LedCount(a[..n], LineEndsNext(rest), Trim(rest));
    LedCount(a[..n], LineEndsNext(rest + b), Trim(rest + b));
  }

  lemma BothLed(a: string, b: string)
    requires a != "" && IsBlank(a[0]) && Blanks(a) < |a|
    ensures
      var n := Blanks(a);
      var rest := a[n..];
      && 0 < n && !IsBlank(a[n]) && (forall j :: 0 <= j < n ==> IsBlank(a[j]))
      && Trim(a) == Led(a[..n], LineEndsNext(rest), Trim(rest))
      && Trim(a + b) == Led(a[..n], LineEndsNext(rest + b), Trim(rest + b))
  {
    hide Trim, LineEndsNext, Led;
    var n := Blanks(a);
    TrimBlanks(a);
    BlanksOf(a, b);
    TrimBlanks(a + b);
    assert (a + b)[..n] == a[..n] && (a + b)[n..] == a[n..] + b;
  }

  lemma LedPlus(blanks: string, atEnd: bool, x: Cleaned, y: Cleaned)
    ensures Plus(Led(blanks, atEnd, x), y) == Led(blanks, atEnd, Plus(x, y))
  {
    assert blanks + x.text + y.text == blanks + (x.text + y.text);
  }

  lemma LedCount(blanks: string, atEnd: bool, x: Cleaned)
    ensures Led(blanks, atEnd, x).count == x.count + (if atEnd then 1 else 0)
  {}

  /** Leading blanks do not matter to a cut, except before a lone carriage return. */
  lemma SameCut(a: string, b: string, n: nat)
    requires 0 < n < |a| && (forall j :: 0 <= j < n ==> IsBlank(a[j])) && !IsBlank(a[n])
    ensures
      var rest := a[n..];
      if rest == "\r" then CleanCut(rest, b) && (CleanCut(a, b) <==> LineEndsNext(rest + b)) && LineEndsNext(rest)
      else (CleanCut(a, b) <==> CleanCut(rest, b)) && (LineEndsNext(rest + b) <==> LineEndsNext(rest))
  {
    var rest := a[n..];
    assert rest[0] == a[n] && rest[|rest| - 1] == a[|a| - 1];
    assert IsBlank(a[n - 1]);
    if |rest| >= 2 {
      assert rest[|rest| - 2] == a[|a| - 2] && (rest + b)[1] == rest[1];
    }
  }

  // ---------------------------------------------------------------- many pieces

  function TrimEach(pieces: seq<string>): Cleaned {
    if pieces == [] then Cleaned("", 0) else Plus(Trim(pieces[0]), TrimEach(pieces[1..]))
  }

  predicate CleanCuts(pieces: seq<string>) {
    pieces == [] || (CleanCut(pieces[0], Concat(pieces[1..])) && CleanCuts(pieces[1..]))
  }

  /** Trimming piece by piece is trimming the whole exactly when every cut is clean. */
  lemma {:induction false} PiecesIff(pieces: seq<string>)
    ensures TrimEach(pieces) == Trim(Concat(pieces)) <==> CleanCuts(pieces)
    ensures TrimEach(pieces).count >= Trim(Concat(pieces)).count
    ensures TrimEach(pieces).count == Trim(Concat(pieces)).count ==> CleanCuts(pieces)
    decreases |pieces|
  {
    hide Trim, CleanCut;
    if pieces == [] {
      assert Trim("") == Cleaned("", 0) by { TrimNothing(); }
    } else {
      CutIff(pieces[0], Concat(pieces[1..]));
      PiecesIff(pieces[1..]);
    }
  }

  // ---------------------------------------------------------------- both rules, both ways

  datatype Both = Both(text: string, keys: nat, blanks: nat)

  /** redact_text, these two rules */
  function WholeText(s: string): Both {
    var keys := RedactAll(s);
    var ends := Trim(keys.text);
    Both(ends.text, keys.count, ends.count)
  }

  /** What the private-key stage lets out, line by line; last, what it still holds. */
  function Outs(k: Keeper, lines: seq<string>): Option<seq<string>>
    decreases |lines|
  {
    if lines == [] then (if k.inKey then None else Some([k.fragment])) else
      var first := PrivateKeys(k, lines[0]);
      if first.None? then None else
        var rest := Outs(first.value.k, lines[1..]);
        if rest.None? then None else Some([first.value.out] + rest.value)
  }

  function KeysFound(k: Keeper, lines: seq<string>): nat
    decreases |lines|
  {
    if lines == [] then k.count else
      var first := PrivateKeys(k, lines[0]);
      if first.None? then k.count else KeysFound(first.value.k, lines[1..])
  }

  /** redact_line over the lines, then finish, these two rules */
  function Streamed(lines: seq<string>): Option<Both> {
    var outs := Outs(FRESH, lines);
    if outs.None? then None else
      var ends := TrimEach(outs.value);
      Some(Both(ends.text, KeysFound(FRESH, lines), ends.count))
  }

  lemma {:induction false} OutsAreStream(k: Keeper, lines: seq<string>)
    ensures
      var all, outs := Lines(k, lines), Outs(k, lines);
      if all.None? || all.value.k.inKey then outs.None?
      else outs.Some? && Concat(outs.value) == all.value.out + all.value.k.fragment && KeysFound(k, lines) == all.value.k.count
    decreases |lines|
  {
    hide PrivateKeys;
    if lines == [] {
      assert Concat([k.fragment]) == k.fragment + Concat([]) == k.fragment;
      assert "" + k.fragment == k.fragment;
    } else {
      var first := PrivateKeys(k, lines[0]);
      if first.Some? {
        OutsAreStream(first.value.k, lines[1..]);
        var rest := Outs(first.value.k, lines[1..]);
        if rest.Some? {
          assert ([first.value.out] + rest.value)[1..] == rest.value;
        }
      }
    }
  }

  /** Where the private-key stage agrees with the whole-text substitution, the two rules together
      agree exactly when that stage cuts no line between its blanks and its end. */
  lemma BothIff(lines: seq<string>, text: string)
    requires Stream(lines) == Some(RedactAll(text))
    ensures Outs(FRESH, lines).Some?
    ensures Streamed(lines) == Some(WholeText(text)) <==> CleanCuts(Outs(FRESH, lines).value)
    ensures Streamed(lines).value.blanks >= WholeText(text).blanks
  {
    hide Lines, Outs, RedactAll, Trim, TrimEach, CleanCuts, KeysFound;
    OutsAreStream(FRESH, lines);
    PiecesIff(Outs(FRESH, lines).value);
  }

  // ---------------------------------------------------------------- a dash at the end of a line

  lemma {:induction false} ShortHasNoMarker(s: string, word: string)
    requires |s| < |word|
    ensures Search(s, word).None? && LastPrefix(s, word).None?
    decreases |s|
  {
    if s != "" {
      ShortHasNoMarker(s[1..], word);
    }
  }

  lemma {:induction false} LastPrefixSkips(p: string, s: string, word: string)
    requires '-' !in p && IsWord(word) && LastPrefix(s, word).None?
    ensures LastPrefix(p + s, word).None?
    decreases |p|
  {
    if p == "" {
      assert p + s == s;
    } else {
      assert (p + s)[1..] == p[1..] + s;
      LastPrefixSkips(p[1..], s, word);
      assert Lower((p + s)[0 + 0]) != word[0];
    }
  }

  lemma {:induction false} DashBegins(p: string, length: nat)
    requires '-' !in p && 1 <= length <= |BEGIN| && length <= |p| + 1
    ensures PartialMarker(p + "-", BEGIN, length) == Some(|p|)
    decreases length
  {
    var line := p + "-";
    if length == 1 {
      assert HasAt(line, |p|, BEGIN[..1]);
    } else {
      assert BEGIN[..length][0] == '-' && Lower(line[|p| + 1 - length + 0]) != '-';
      DashBegins(p, length - 1);
    }
  }

  /** A dash at the end of a line may begin a marker and is held back. */
  lemma HeldDash(p: string)
    requires '-' !in p
    ensures HoldIncompleteMarker(p + "-\n", BEGIN) == Some(Held(p, "-\n"))
  {
    hide HasAt, Contains, PartialMarker, LastPrefix;
    var text := p + "-\n";
    assert Chomp(text, '\n') == p + "-" && Chomp(p + "-", '\r') == p + "-";
    ShortHasNoMarker("-\n", BEGIN);
    LastPrefixSkips(p, "-\n", BEGIN);
    DashBegins(p, Min(|BEGIN| - 1, |p| + 1));
    assert text[..|p|] == p && text[|p|..] == "-\n";
  }

  /** The first line lets out all but its dash. */
  lemma FirstOut(p: string)
    requires '-' !in p
    ensures PrivateKeys(FRESH, p + "-\n") == Some(Step(Keeper(false, "-\n", 0), p))
  {
    hide HoldIncompleteMarker, Search;
    assert "" + (p + "-\n") == p + "-\n";
    HeldDash(p);
    ShortHasNoMarker("-\n", BEGIN);
    SearchSkips(p, "-\n", BEGIN);
  }

  lemma NoSplitMarker(text: string)
    requires text != "" && text[0] != '-'
    ensures !Contains("-", BEGIN) && !Contains("-", END)
    ensures !Continues("-" + text, BEGIN) && !Continues("-" + text, END)
    ensures TrimEnd("-\n") == "-"
  {
    assert ("-" + text)[1] == text[0] && BEGIN[1] == '-' && END[1] == '-';
    assert "-\n"[..1] == "-";
  }

  /** The second line brings the dash out whole. */
  lemma SecondOut(text: string)
    requires text != "" && '-' !in text
    ensures PrivateKeys(Keeper(false, "-\n", 0), text) == Some(Step(FRESH, "-\n" + text))
  {
    hide HoldIncompleteMarker, Search, Contains, Continues, TrimEnd;
    NoSplitMarker(text);
    SearchPlain(text, BEGIN);
    NothingHeld(text, BEGIN);
  }

  /** A line that ends in a dash is cut before it, whatever else is in it. */
  lemma DashIsCut(p: string, text: string)
    requires '-' !in p && '-' !in text && text != ""
    ensures Outs(FRESH, [p + "-\n", text]) == Some([p, "-\n" + text, ""]) && KeysFound(FRESH, [p + "-\n", text]) == 0
  {
    hide PrivateKeys;
    FirstOut(p);
    SecondOut(text);
    var lines := [p + "-\n", text];
    var k := Keeper(false, "-\n", 0);
    assert lines[1..] == [text] && [text][1..] == [];
    assert Outs(FRESH, []) == Some([""]) && Outs(k, [text]) == Some(["-\n" + text] + [""]);
    assert KeysFound(FRESH, []) == 0 && KeysFound(k, [text]) == 0;
    assert ["-\n" + text] + [""] == ["-\n" + text, ""] && [p] + ["-\n" + text, ""] == [p, "-\n" + text, ""];
  }

  lemma NoMarkerAroundDash(p: string, text: string)
    requires '-' !in p && '-' !in text
    ensures RedactAll(p + ("-\n" + text)) == Cleaned(p + ("-\n" + text), 0)
  {
    hide Search;
    SearchSkips(p, "-\n" + text, BEGIN);
    LoneDash(text);
  }

  lemma LoneDash(text: string)
    requires '-' !in text
    ensures Search("-\n" + text, BEGIN).None?
  {
    hide NextDash;
    var s := "-\n" + text;
    assert s[1..] == "\n" + text && s[0 + 1] == '\n' && (BEGIN + " ")[1] == '-';
    SearchPlain("\n" + text, BEGIN);
  }

  lemma {:induction false} TrimNoBlanks(s: string)
    requires ' ' !in s && '\t' !in s
    ensures Trim(s) == Cleaned(s, 0)
    decreases |s|
  {
    if s != "" {
      TrimNoBlanks(s[1..]);
    }
  }

  lemma DashTrimmed()
    ensures Trim("a ") == Cleaned("a", 1)
    ensures Trim("a -\nb\n") == Cleaned("a -\nb\n", 0)
  {
    hide Trim, Blanks;
    TrimNothing();
    TrimNoBlanks("-\nb\n");
    OneBlank("");
    OneBlank("-\nb\n");
    OnePlain('a', " ");
    OnePlain('a', " -\nb\n");
    assert " " + "" == " " && ['a'] + " " == "a " && ['a'] + "" == "a";
    assert " " + "-\nb\n" == " -\nb\n" && ['a'] + " -\nb\n" == "a -\nb\n";
  }

  lemma OneBlank(rest: string)
    requires rest == "" || !IsBlank(rest[0])
    ensures Trim(" " + rest) ==
            if LineEndsNext(rest) then Cleaned(Trim(rest).text, Trim(rest).count + 1) else Cleaned(" " + Trim(rest).text, Trim(rest).count)
  {
    BlanksOf(" ", rest);
    assert (" " + rest)[1..] == rest && (" " + rest)[..1] == " " && Blanks(rest) == 0 && Blanks(" ") == 1;
  }

  lemma OnePlain(c: char, rest: string)
    requires !IsBlank(c)
    ensures Trim([c] + rest) == Cleaned([c] + Trim(rest).text, Trim(rest).count)
  {
    assert ([c] + rest)[1..] == rest;
  }

  /** A dash at the end of a line is held back as a possible marker, which leaves the blank before
      it at the end of a piece: streamed, that blank goes; in the whole text it stays. What is
      written is left alone by the whole-text rules, so it is the comparison that fails. */
  lemma DashAtLineEnd()
    ensures Streamed(["a -\n", "b\n"]) == Some(Both("a-\nb\n", 0, 1))
    ensures WholeText("a -\nb\n") == Both("a -\nb\n", 0, 0)
    ensures WholeText("a-\nb\n") == Both("a-\nb\n", 0, 0)
  {
    hide Streamed, WholeText, RedactAll, Trim;
    DashStreamed();
    DashTrimmed();
    NoMarkerAroundDash("a ", "b\n");
    Spelled();
    Untouched("a -\nb\n");
    NoMarkerAroundDash("a", "b\n");
    TrimNoBlanks("a-\nb\n");
    Untouched("a-\nb\n");
  }

  lemma Untouched(s: string)
    requires RedactAll(s) == Cleaned(s, 0) && Trim(s) == Cleaned(s, 0)
    ensures WholeText(s) == Both(s, 0, 0)
  {
    hide RedactAll, Trim;
  }

  lemma DashStreamed()
    ensures Streamed(["a -\n", "b\n"]) == Some(Both("a-\nb\n", 0, 1))
  {
    hide Streamed, Trim;
    DashTrimmed();
    TrimNoBlanks("-\nb\n");
    DashStreams("a ", "b\n");
    Spelled();
  }

  lemma Spelled()
    ensures "a " + "-\n" == "a -\n" && "-\n" + "b\n" == "-\nb\n" && "a" + "-\nb\n" == "a-\nb\n"
    ensures "a " + ("-\n" + "b\n") == "a -\nb\n" && "a" + ("-\n" + "b\n") == "a-\nb\n"
  {}

  /** Streamed, the two sides of the cut are trimmed apart. */
  lemma DashStreams(p: string, text: string)
    requires '-' !in p && '-' !in text && text != ""
    ensures
      var both := Plus(Trim(p), Trim("-\n" + text));
      Streamed([p + "-\n", text]) == Some(Both(both.text, 0, both.count))
  {
    hide Outs, KeysFound, Trim, TrimEach;
    DashIsCut(p, text);
    TrimNothing();
    ThreePieces([p, "-\n" + text, ""]);
  }

  lemma TrimFront(pieces: seq<string>)
    requires pieces != []
    ensures TrimEach(pieces) == Plus(Trim(pieces[0]), TrimEach(pieces[1..]))
  {}

  lemma ThreePieces(pieces: seq<string>)
    requires |pieces| == 3 && Trim(pieces[2]) == Cleaned("", 0)
    ensures TrimEach(pieces) == Plus(Trim(pieces[0]), Trim(pieces[1]))
  {
    hide Trim, TrimEach;
    TrimFront(pieces);
    TrimFront(pieces[1..]);
    TrimFront(pieces[1..][1..]);
    TrimNone(pieces[1..][1..][1..]);
    PlusNothing(Trim(pieces[1]), Trim(pieces[2]));
  }

  lemma TrimNone(pieces: seq<string>)
    requires |pieces| == 0
    ensures TrimEach(pieces) == Cleaned("", 0)
  {}

  lemma PlusNothing(x: Cleaned, e: Cleaned)
    requires |e.text| == 0 && e.count == 0
    ensures Plus(x, Plus(e, e)) == x
  {
    assert |e.text + e.text| == 0;
  }

  // ---------------------------------------------------------------- a marker left open

  lemma {:induction false} FewDashes(s: string, word: string)
    requires (word == BEGIN || word == END) && forall j :: 4 <= j < |s| ==> s[j] != '-'
    ensures Search(s, word).None? && LastPrefix(s, word).None?
    decreases |s|
  {
    if s != "" {
      assert word[4] == '-' && (word + " ")[4] == '-';
      assert |s| > 4 ==> Lower(s[0 + 4]) != '-';
      FewDashes(s[1..], word);
    }
  }

  lemma {:induction false} LastPrefixShifts(p: string, s: string, word: string)
    requires (word == BEGIN || word == END) && LastPrefix(s, word).Some?
    ensures LastPrefix(p + s, word) == Some(|p| + LastPrefix(s, word).value)
    decreases |p|
  {
    if p == "" {
      assert p + s == s;
    } else {
      assert (p + s)[1..] == p[1..] + s;
      LastPrefixShifts(p[1..], s, word);
    }
  }

  lemma OpenMarker(rest: string)
    requires '-' !in rest
    ensures Search("-----BEGIN" + rest, BEGIN).None? && LastPrefix("-----BEGIN" + rest, BEGIN) == Some(0)
  {
    var s := "-----BEGIN" + rest;
    assert forall j :: 5 <= j < |s| ==> s[j] != '-';
    FewDashes(s[1..], BEGIN);
    assert MarkerAt(s, BEGIN).None? by {
      if HasAt(s, 0, BEGIN + " ") {
        assert NextDash(s, |BEGIN| + 1) == |s|;
      }
    }
    assert HasAt(s, 0, BEGIN);
  }

  /** A line that opens a marker and does not close it: everything before is let out and the marker is
      carried over to the next line, unless it is longer than a fragment may be, which is refused. */
  lemma OpenMarkerIsHeld(k: Keeper, before: string, rest: string)
    requires !k.inKey && k.fragment == "" && '-' !in before && '-' !in rest
    ensures PrivateKeys(k, before + ("-----BEGIN" + rest)) ==
            if |"-----BEGIN" + rest| > 4096 then None else Some(Step(k.(fragment := "-----BEGIN" + rest), before))
  {
    hide Search, LastPrefix, PartialMarker, HasAt, Contains;
    var s := "-----BEGIN" + rest;
    var text := before + s;
    OpenMarker(rest);
    SearchSkips(before, s, BEGIN);
    LastPrefixShifts(before, s, BEGIN);
    assert text[|before|..] == s && text[..|before|] == before;
    assert text[|before| + |BEGIN|..] == rest;
    NoDashesIn(rest);
    assert "" + text == text;
    assert k.(fragment := "") == k;
  }

  lemma NoDashesIn(rest: string)
    requires '-' !in rest
    ensures !Contains(rest, DASHES)
  {
    if i :| 0 <= i <= |rest| && HasAt(rest, i, DASHES) {
      assert Lower(rest[i + 0]) == DASHES[0];
      DashLower(rest[i]);
    }
  }

  lemma DashLower(c: char)
    requires Lower(c) == '-'
    ensures c == '-'
  {}
}
