/** Any rules that do not reach across the end of a line (src/sddgov/redaction.py), after the
    private-key stage: when the streaming redactor and the whole-text redactor agree. */
module LineRules {
  import opened Common
  import opened Keys = PrivateKeys
  import opened KeyLines
  import opened LineEnds

  /** A text after the rules, and how often each of them struck. */
  datatype Ruled = Ruled(text: string, counts: multiset<string>)

  /** The rules in their order, with the search for what they must not leave behind; None refuses. */
  type Rules = string -> Option<Ruled>

  const NOTHING: Ruled := Ruled("", multiset{})

  function Join(a: Option<Ruled>, b: Option<Ruled>): Option<Ruled> {
    if a.None? || b.None? then None else Some(Ruled(a.value.text + b.value.text, a.value.counts + b.value.counts))
  }

  // ---------------------------------------------------------------- rules and line ends

  predicate StartsAtEnd(s: string) {
    s != "" && (s[0] == '\n' || (s[0] == '\r' && |s| > 1 && s[1] == '\n'))
  }

  /** A cut right after the end of a line, or right before it. */
  predicate LineCut(a: string, b: string) {
    a == "" || b == "" || EndsLine(a) || (a[|a| - 1] != '\r' && StartsAtEnd(b))
  }

  /** On this text the rules work on each side of such a cut alone. */
  ghost predicate Local(rules: Rules, t: string) {
    && rules("") == Some(NOTHING)
    && forall i: nat, j: nat :: i <= j <= |t| && LineCut(t[i..j], t[j..]) ==> rules(t[i..]) == Join(rules(t[i..j]), rules(t[j..]))
  }

  /** What the streaming redactor makes of the pieces the private-key stage lets out. */
  function Each(rules: Rules, pieces: seq<string>): Option<Ruled> {
    if pieces == [] then Some(NOTHING) else Join(rules(pieces[0]), Each(rules, pieces[1..]))
  }

  predicate LineCuts(pieces: seq<string>) {
    pieces == [] || (LineCut(pieces[0], Concat(pieces[1..])) && LineCuts(pieces[1..]))
  }

  lemma {:induction false} EachIsWhole(rules: Rules, t: string, pieces: seq<string>, i: nat)
    requires Local(rules, t) && i <= |t| && t[i..] == Concat(pieces) && LineCuts(pieces)
    ensures Each(rules, pieces) == rules(t[i..])
    decreases |pieces|
  {
    hide LineCut;
    if pieces != [] {
      var j := i + |pieces[0]|;
      Apart(t, i, pieces[0], Concat(pieces[1..]));
      EachIsWhole(rules, t, pieces[1..], j);
    }
  }

  lemma Apart(t: string, i: nat, a: string, b: string)
    requires i <= |t| && t[i..] == a + b
    ensures i + |a| <= |t| && t[i..i + |a|] == a && t[i + |a|..] == b
  {
    assert |t| - i == |a| + |b|;
    assert t[i..i + |a|] == t[i..][..|a|] && t[i + |a|..] == t[i..][|a|..];
  }

  // ---------------------------------------------------------------- both redactors

  datatype All = All(text: string, keys: nat, counts: multiset<string>)

  /** redact_text */
  function WholeRuled(rules: Rules, s: string): Option<All> {
    var keys := RedactAll(s);
    var ruled := rules(keys.text);
    if ruled.None? then None else Some(All(ruled.value.text, keys.count, ruled.value.counts))
  }

  /** redact_line over the lines, then finish */
  function StreamedRuled(rules: Rules, lines: seq<string>): Option<All> {
    var outs := Outs(FRESH, lines);
    if outs.None? then None else
      var ruled := Each(rules, outs.value);
      if ruled.None? then None else Some(All(ruled.value.text, KeysFound(FRESH, lines), ruled.value.counts))
  }

  /** A line that ends a block begun on an earlier line holds nothing after the block. */
  predicate ClosesAtEnd(inKey: bool, r: string) {
    inKey && Search(r, END).Some? ==> var rest := r[Search(r, END).value.end..]; rest == "" || rest == "\n" || rest == "\r\n"
  }

  predicate AllClose(inKey: bool, lines: seq<string>)
    decreases |lines|
  {
    lines == [] || (ClosesAtEnd(inKey, lines[0]) && AllClose(Opens(inKey, lines[0]), lines[1..]))
  }

  // ---------------------------------------------------------------- where the private-key stage cuts

  lemma {:induction false} LetEnds(inKey: bool, r: string)
    requires EndsLine(r) && !Opens(inKey, r)
    ensures EndsLine(Let(inKey, r).text)
    decreases |r|
  {
    hide Search;
    if inKey {
      RestEndsLine(r, END);
      LetEnds(false, r[Search(r, END).value.end..]);
    } else if Search(r, BEGIN).Some? {
      RestEndsLine(r, BEGIN);
      LetEnds(true, r[Search(r, BEGIN).value.end..]);
    }
  }

  predicate EndsInNotice(s: string) {
    s != "" && s[|s| - 1] == ']'
  }

  lemma {:induction false} LetNotice(inKey: bool, r: string)
    requires Opens(inKey, r)
    ensures if inKey then Let(true, r).text == "" || EndsInNotice(Let(true, r).text) else EndsInNotice(Let(false, r).text)
    decreases |r|
  {
    hide Search;
    if inKey {
      if Search(r, END).Some? {
        LetNotice(false, r[Search(r, END).value.end..]);
      }
    } else {
      LetNotice(true, r[Search(r, BEGIN).value.end..]);
    }
  }

  lemma BareEnd(rest: string)
    requires rest == "" || rest == "\n" || rest == "\r\n"
    ensures !Opens(false, rest) && Let(false, rest) == Cleaned(rest, 0)
  {
    ShortHasNoMarker(rest, BEGIN);
  }

  /** What a line in a block lets out if it closes at its end. */
  lemma LetInBlock(r: string)
    requires ClosesAtEnd(true, r)
    ensures
      var out := Let(true, r).text;
      if Opens(true, r) then out == ""
      else (out == "" || out == "\n" || out == "\r\n") && (EndsLine(r) ==> out != "")
  {
    hide Search;
    if Search(r, END).Some? {
      BareEnd(r[Search(r, END).value.end..]);
      if EndsLine(r) {
        RestEndsLine(r, END);
      }
    }
  }

  /** On tidy lines that close their blocks at the end, every cut is at a line end; and what is let
      out while a block is open begins with one. */
  lemma {:induction false} CutsAreAtEnds(k: Keeper, lines: seq<string>)
    requires k.fragment == "" && TidyLines(k.inKey, lines) && AllClose(k.inKey, lines) && Outs(k, lines).Some?
    ensures LineCuts(Outs(k, lines).value)
    ensures k.inKey ==> Concat(Outs(k, lines).value) == "" || StartsAtEnd(Concat(Outs(k, lines).value))
    decreases |lines|
  {
    hide Tidy, Let, Opens, PrivateKeys, ClosesAtEnd;
    if lines == [] {
      assert Outs(k, lines).value == [""] && [""][1..] == [];
    } else {
      var line := lines[0];
      var out := Let(k.inKey, line).text;
      TidyKeys(k, line);
      var k1 := Keeper(Opens(k.inKey, line), "", k.count + Let(k.inKey, line).count);
      CutsAreAtEnds(k1, lines[1..]);
      var rest := Outs(k1, lines[1..]).value;
      assert Outs(k, lines).value == [out] + rest && ([out] + rest)[1..] == rest;
      if lines[1..] == [] {
        assert rest == [""] && Concat(rest) == "" + Concat([""][1..]);
      }
      FirstCut(k.inKey, line, Concat(rest));
    }
  }

  lemma FirstCut(inKey: bool, line: string, b: string)
    requires ClosesAtEnd(inKey, line) && (b == "" || EndsLine(line))
    requires Opens(inKey, line) ==> b == "" || StartsAtEnd(b)
    ensures LineCut(Let(inKey, line).text, b)
    ensures inKey ==> var s := Let(inKey, line).text + b; s == "" || StartsAtEnd(s)
  {
    hide Let, Opens, ClosesAtEnd;
    if inKey {
      LetInBlock(line);
      if Opens(inKey, line) {
        assert "" + b == b;
      }
    } else if Opens(inKey, line) {
      LetNotice(inKey, line);
    } else if EndsLine(line) {
      LetEnds(inKey, line);
    }
  }

  // ---------------------------------------------------------------- the theorem

  /** On lines that finish the markers they begin and close their blocks at the end, and for rules that
      do not reach across a line end of what is left, the two redactors agree, in text, counts and
      refusals; but a block left open is refused by the stream and stands in the whole text. */
  lemma LinesAgree(rules: Rules, lines: seq<string>)
    requires TidyLines(false, lines) && AllClose(false, lines)
    requires Local(rules, RedactAll(Concat(lines)).text)
    ensures StreamedRuled(rules, lines) ==
            if Whole(false, Concat(lines)).None? then None else WholeRuled(rules, Concat(lines))
  {
    hide TidyLines, AllClose, Lines, RedactAll, Outs, Whole, Local, LineCuts, KeysFound;
    var text := Concat(lines);
    TidyRefinesBatch(lines);
    OutsAreStream(FRESH, lines);
    if Outs(FRESH, lines).Some? {
      CutsAreAtEnds(FRESH, lines);
      var t := RedactAll(text).text;
      assert t[0..] == t;
      EachIsWhole(rules, t, Outs(FRESH, lines).value, 0);
    }
  }

  /** In particular without dashes at all. */
  lemma PlainLinesAgree(rules: Rules, lines: seq<string>)
    requires (forall i :: 0 <= i < |lines| ==> PlainLine(lines[i])) && Local(rules, Concat(lines))
    ensures StreamedRuled(rules, lines) == WholeRuled(rules, Concat(lines))
  {
    hide RedactAll, Outs, Local, KeysFound, TidyLines, AllClose, Search;
    PlainIsTidy(lines);
    SearchPlain(Concat(lines), BEGIN);
    PlainWhole(Concat(lines));
    LinesAgree(rules, lines);
  }

  predicate PlainLine(s: string) {
    '-' !in s && EndsLine(s)
  }

  lemma {:induction false} PlainIsTidy(lines: seq<string>)
    requires forall i :: 0 <= i < |lines| ==> PlainLine(lines[i])
    ensures TidyLines(false, lines) && AllClose(false, lines) && '-' !in Concat(lines)
    decreases |lines|
  {
    hide Search, HoldIncompleteMarker;
    if lines != [] {
      SearchPlain(lines[0], BEGIN);
      NothingHeld(lines[0], BEGIN);
      PlainIsTidy(lines[1..]);
    }
  }

  lemma PlainWhole(s: string)
    requires Search(s, BEGIN).None?
    ensures Whole(false, s).Some? && RedactAll(s) == Cleaned(s, 0)
  {
    hide Search;
  }

  // ---------------------------------------------------------------- two of the rules

  /** One rule alone, from what its substitution gives. */
  function Alone(rule: string, c: Cleaned): Option<Ruled> {
    Some(Ruled(c.text, multiset{}[rule := c.count]))
  }

  lemma AlonePlus(rule: string, a: Cleaned, b: Cleaned)
    ensures Alone(rule, Plus(a, b)) == Join(Alone(rule, a), Alone(rule, b))
  {
    assert multiset{}[rule := a.count] + multiset{}[rule := b.count] == multiset{}[rule := a.count + b.count];
  }

  lemma AloneNothing(rule: string)
    ensures Alone(rule, Cleaned("", 0)) == Some(NOTHING)
  {
    assert multiset{}[rule := 0] == multiset{};
  }

  /** The trailing-whitespace rule. */
  function BlankRule(s: string): Option<Ruled> {
    Alone("trailing-whitespace", Trim(s))
  }

  lemma BlankRuleIsLocal(t: string)
    ensures Local(BlankRule, t)
  {
    hide Trim, Alone;
    TrimNothing();
    AloneNothing("trailing-whitespace");
    forall i: nat, j: nat | i <= j <= |t| && LineCut(t[i..j], t[j..])
      ensures BlankRule(t[i..]) == Join(BlankRule(t[i..j]), BlankRule(t[j..]))
    {
      assert t[i..] == t[i..j] + t[j..];
      TrimAtEnd(t[i..j], t[j..]);
    }
  }

  lemma TrimAtEnd(a: string, b: string)
    requires LineCut(a, b)
    ensures BlankRule(a + b) == Join(BlankRule(a), BlankRule(b))
  {
    hide Trim, Alone;
    assert CleanCut(a, b);
    CutIff(a, b);
    AlonePlus("trailing-whitespace", Trim(a), Trim(b));
  }

  const FIELD: string := "api_key="
  const SECRET: string := "[REDACTED_SECRET]"

  /** What an unquoted value may not hold. */
  predicate EndsValue(c: char) {
    9 <= c as int <= 13 || c == ' ' || c == ',' || c == ';' || c == '"' || c == '\''
  }

  function Value(s: string): (n: nat)
    ensures n <= |s| && (n < |s| ==> EndsValue(s[n]))
    ensures forall j :: 0 <= j < n ==> !EndsValue(s[j])
  {
    if s == "" || EndsValue(s[0]) then 0 else 1 + Value(s[1..])
  }

  /** The secret-field rule on unquoted values of one field. */
  function FieldOnly(s: string): Cleaned
    decreases |s|
  {
    if s == "" then Cleaned("", 0)
    else if HasAt(s, 0, FIELD) && Value(s[|FIELD|..]) > 0 then
      var rest := FieldOnly(s[|FIELD| + Value(s[|FIELD|..])..]);
      Cleaned(s[..|FIELD|] + SECRET + rest.text, rest.count + 1)
    else
      var rest := FieldOnly(s[1..]);
      Cleaned([s[0]] + rest.text, rest.count)
  }

  function FieldRule(s: string): Option<Ruled> {
    Alone("secret-field", FieldOnly(s))
  }

  lemma {:induction false} ValueOf(a: string, b: string)
    ensures Value(a + b) == if Value(a) < |a| then Value(a) else |a| + Value(b)
    decreases |a|
  {
    if a == "" {
      assert a + b == b;
    } else {
      assert (a + b)[0] == a[0] && (a + b)[1..] == a[1..] + b;
      if !EndsValue(a[0]) {
        ValueOf(a[1..], b);
      }
    }
  }

  /** The field's name does not reach across a line end, nor does a value. */
  lemma FieldStays(a: string, b: string)
    requires a != "" && LineCut(a, b)
    ensures FieldHere(a + b) <==> FieldHere(a)
    ensures FieldHere(a) ==> Value((a + b)[|FIELD|..]) == Value(a[|FIELD|..])
    ensures Front(a + b) == Front(a)
  {
    if HasAt(a, 0, FIELD) {
      StillHas(a, b, 0, FIELD);
      assert (a + b)[|FIELD|..] == a[|FIELD|..] + b;
      ValueOf(a[|FIELD|..], b);
      assert a[|FIELD|..] != "" ==> a[|FIELD|..][|a| - |FIELD| - 1] == a[|a| - 1];
      if |a| == |FIELD| {
        LastOfField(a);
      }
    } else if HasAt(a + b, 0, FIELD) {
      NameWithin(a, b);
    }
  }

  lemma LastOfField(a: string)
    requires HasAt(a, 0, FIELD) && |a| == |FIELD|
    ensures !EndsLine(a)
  {
    assert Lower(a[0 + 7]) == FIELD[7];
  }

  lemma NameWithin(a: string, b: string)
    requires a != "" && LineCut(a, b) && HasAt(a + b, 0, FIELD)
    ensures HasAt(a, 0, FIELD)
  {
    hide HasAt;
    if |a| < |FIELD| {
      LetterAt(a + b, 0, FIELD, |a| - 1);
      LetterAt(a + b, 0, FIELD, |a|);
    } else {
      HadAt(a, b, 0, FIELD);
    }
  }

  lemma {:induction false} FieldAtEnd(a: string, b: string)
    requires LineCut(a, b)
    ensures FieldOnly(a + b) == Plus(FieldOnly(a), FieldOnly(b))
    decreases |a|
  {
    hide FieldOnly, HasAt, Value, SECRET, FIELD, LineCut;
    if a == "" {
      assert a + b == b;
      FieldNothing(b);
    } else {
      FieldStays(a, b);
      var n := if FieldHere(a) then |FIELD| + Value(a[|FIELD|..]) else 1;
      FieldFirst(a, n);
      FieldFirst(a + b, n);
      CutRest(a, b, n);
      FieldAtEnd(a[n..], b);
      PlusThree(Front(a), FieldOnly(a[n..]), FieldOnly(b));
    }
  }

  /** Does a value of the field stand here? */
  predicate FieldHere(s: string) {
    HasAt(s, 0, FIELD) && |FIELD| <= |s| && Value(s[|FIELD|..]) > 0
  }

  /** What comes out for the first character, or for the field and its value. */
  function Front(s: string): Cleaned
    requires s != ""
  {
    if FieldHere(s) then Cleaned(s[..|FIELD|] + SECRET, 1) else Cleaned([s[0]], 0)
  }

  lemma FieldFirst(s: string, n: nat)
    requires s != "" && n == if FieldHere(s) then |FIELD| + Value(s[|FIELD|..]) else 1
    ensures n <= |s| && FieldOnly(s) == Plus(Front(s), FieldOnly(s[n..]))
  {
    hide Value, SECRET;
  }

  lemma FieldNothing(b: string)
    ensures Plus(FieldOnly(""), FieldOnly(b)) == FieldOnly(b)
  {
    assert FieldOnly("") == Cleaned("", 0);
    assert "" + FieldOnly(b).text == FieldOnly(b).text;
  }

  lemma CutRest(a: string, b: string, n: nat)
    requires a != "" && n <= |a| && LineCut(a, b)
    ensures LineCut(a[n..], b) && (a + b)[n..] == a[n..] + b
  {}

  lemma PlusThree(x: Cleaned, y: Cleaned, z: Cleaned)
    ensures Plus(x, Plus(y, z)) == Plus(Plus(x, y), z)
  {
    assert x.text + (y.text + z.text) == x.text + y.text + z.text;
  }

  lemma FieldRuleIsLocal(t: string)
    ensures Local(FieldRule, t)
  {
    hide FieldOnly, Alone;
    assert FieldOnly("") == Cleaned("", 0) by { FieldEmpty(); }
    AloneNothing("secret-field");
    forall i: nat, j: nat | i <= j <= |t| && LineCut(t[i..j], t[j..])
      ensures FieldRule(t[i..]) == Join(FieldRule(t[i..j]), FieldRule(t[j..]))
    {
      assert t[i..] == t[i..j] + t[j..];
      FieldAtEnd(t[i..j], t[j..]);
      AlonePlus("secret-field", FieldOnly(t[i..j]), FieldOnly(t[j..]));
    }
  }

  lemma FieldEmpty()
    ensures FieldOnly("") == Cleaned("", 0)
  {}

  // ---------------------------------------------------------------- a dash at the end of a line

  /** On a line that ends in its one dash, with a dash-free text after it, the redactors agree exactly
      if the rules may be applied on the two sides of the cut before the dash. */
  lemma DashAgreeIff(rules: Rules, p: string, text: string)
    requires '-' !in p && '-' !in text && text != "" && rules("") == Some(NOTHING)
    ensures
      var s := p + ("-\n" + text);
      && StreamedRuled(rules, [p + "-\n", text]) == NoKeys(Join(rules(p), rules("-\n" + text)))
      && WholeRuled(rules, s) == NoKeys(rules(s))
      && (StreamedRuled(rules, [p + "-\n", text]) == WholeRuled(rules, s) <==> Join(rules(p), rules("-\n" + text)) == rules(s))
  {
    hide Outs, KeysFound, Each, RedactAll;
    DashIsCut(p, text);
    NoMarkerAroundDash(p, text);
    EachOfThree(rules, [p, "-\n" + text, ""]);
  }

  function NoKeys(r: Option<Ruled>): Option<All> {
    if r.None? then None else Some(All(r.value.text, 0, r.value.counts))
  }

  lemma EachFront(rules: Rules, pieces: seq<string>)
    requires pieces != []
    ensures Each(rules, pieces) == Join(rules(pieces[0]), Each(rules, pieces[1..]))
  {}

  lemma EachNone(rules: Rules, pieces: seq<string>)
    requires |pieces| == 0
    ensures Each(rules, pieces) == Some(NOTHING)
  {}

  lemma EachOfThree(rules: Rules, pieces: seq<string>)
    requires |pieces| == 3 && rules(pieces[2]) == Some(NOTHING)
    ensures Each(rules, pieces) == Join(rules(pieces[0]), rules(pieces[1]))
  {
    hide Each;
    EachFront(rules, pieces);
    EachFront(rules, pieces[1..]);
    EachFront(rules, pieces[1..][1..]);
    EachNone(rules, pieces[1..][1..][1..]);
    JoinNothing(rules(pieces[1]), NOTHING);
  }

  lemma JoinNothing(r: Option<Ruled>, n: Ruled)
    requires n == NOTHING
    ensures Join(r, Join(Some(n), Some(n))) == r
  {
    assert |n.text + n.text| == 0 && n.counts + n.counts == multiset{};
    if r.Some? {
      assert r.value.text + (n.text + n.text) == r.value.text;
      assert r.value.counts + (n.counts + n.counts) == r.value.counts;
    }
  }

  lemma {:induction false} NoField(s: string)
    requires '=' !in s
    ensures FieldOnly(s) == Cleaned(s, 0)
    decreases |s|
  {
    hide HasAt;
    if s != "" {
      if HasAt(s, 0, FIELD) {
        EqualsIn(s);
      }
      NoField(s[1..]);
    }
  }

  lemma EqualsIn(s: string)
    requires HasAt(s, 0, FIELD)
    ensures '=' in s
  {
    assert Lower(s[0 + 7]) == FIELD[7];
    assert s[7] in s;
  }

  /** A value of the field, and what ends it. */
  lemma FieldValue(v: string, rest: string)
    requires v != "" && (forall c :: c in v ==> !EndsValue(c)) && (rest == "" || EndsValue(rest[0]))
    ensures FieldOnly(FIELD + v + rest) == Plus(Cleaned(FIELD + SECRET, 1), FieldOnly(rest))
  {
    hide SECRET, FieldOnly;
    var s := FIELD + v + rest;
    assert s[|FIELD|..] == v + rest && s[..|FIELD|] == FIELD && s[|FIELD| + |v|..] == rest;
    AllValue(v);
    ValueOf(v, rest);
    NameStands(v + rest);
    assert FIELD + (v + rest) == s;
    FieldFirst(s, |FIELD| + |v|);
  }

  lemma NameStands(s: string)
    ensures HasAt(FIELD + s, 0, FIELD)
  {}

  lemma {:induction false} AllValue(v: string)
    requires forall c :: c in v ==> !EndsValue(c)
    ensures Value(v) == |v|
    decreases |v|
  {
    if v != "" {
      assert v[0] in v;
      AllValue(v[1..]);
    }
  }

  /** Another rule at such a line, whatever the value: streamed, the value ends before the dash, which
      stays; in the whole text the dash belongs to the value. No blank is near the cut, so the condition
      of `BothIff` holds; api_key=abc-, newline, next, newline is one such text. */
  lemma DashInValue(v: string, text: string)
    requires v != "" && (forall c :: c in v ==> !EndsValue(c) && c != '-')
    requires text != "" && '-' !in text && '=' !in text
    ensures
      var lines, s := [FIELD + v + "-\n", text], FIELD + v + ("-\n" + text);
      var counts := multiset{}["secret-field" := 1];
      && s == Concat(lines)
      && StreamedRuled(FieldRule, lines) == Some(All(FIELD + SECRET + ("-\n" + text), 0, counts))
      && WholeRuled(FieldRule, s) == Some(All(FIELD + SECRET + ("\n" + text), 0, counts))
      && StreamedRuled(FieldRule, lines) != WholeRuled(FieldRule, s)
      && Outs(FRESH, lines) == Some([FIELD + v, "-\n" + text, ""]) && CleanCuts([FIELD + v, "-\n" + text, ""])
  {
    hide StreamedRuled, WholeRuled, Outs, FieldOnly, CleanCuts, SECRET, EndsValue, Concat;
    DashFree(v);
    DashAgreeIff(FieldRule, FIELD + v, text) by {
      FieldEmpty();
      AloneNothing("secret-field");
    }
    DashIsCut(FIELD + v, text);
    FieldStreamed(v, "-\n" + text);
    FieldWhole(v, text);
    TwoLines(FIELD + v, text);
    DashCutIsClean([FIELD + v, "-\n" + text, ""]) by {
      LastOfValue(v, text);
    }
    assert (FIELD + SECRET + ("-\n" + text))[|FIELD| + |SECRET|] == '-';
    assert (FIELD + SECRET + ("\n" + text))[|FIELD| + |SECRET|] == '\n';
  }

  lemma DashFree(v: string)
    requires forall c :: c in v ==> c != '-'
    ensures '-' !in FIELD + v
  {}

  lemma TwoLines(p: string, text: string)
    ensures Concat([p + "-\n", text]) == p + ("-\n" + text)
  {
    assert [p + "-\n", text][1..] == [text] && [text][1..] == [];
    assert Concat([text]) == text + Concat([]) == text;
  }

  lemma LastOfValue(v: string, text: string)
    requires v != "" && text != "" && (forall c :: c in v ==> !EndsValue(c))
    ensures var p := FIELD + v; !EndsValue(p[|p| - 1])
  {
    assert v[|v| - 1] in v;
  }

  lemma FieldStreamed(v: string, rest: string)
    requires v != "" && (forall c :: c in v ==> !EndsValue(c)) && '=' !in rest
    ensures Join(FieldRule(FIELD + v), FieldRule(rest)) == Alone("secret-field", Cleaned(FIELD + SECRET + rest, 1))
  {
    hide SECRET, EndsValue, FieldOnly;
    FieldValue(v, "");
    FieldEmpty();
    NoField(rest);
    assert FIELD + v + "" == FIELD + v && FIELD + SECRET + "" == FIELD + SECRET;
    AlonePlus("secret-field", FieldOnly(FIELD + v), FieldOnly(rest));
  }

  lemma FieldWhole(v: string, text: string)
    requires v != "" && (forall c :: c in v ==> !EndsValue(c)) && '=' !in text
    ensures FieldRule(FIELD + v + ("-\n" + text)) == Alone("secret-field", Cleaned(FIELD + SECRET + ("\n" + text), 1))
  {
    hide SECRET, FieldOnly;
    FieldValue(v + "-", "\n" + text);
    NoField("\n" + text);
    assert FIELD + (v + "-") + ("\n" + text) == FIELD + v + ("-\n" + text);
  }

  lemma DashCutIsClean(pieces: seq<string>)
    requires |pieces| == 3 && pieces[2] == "" && pieces[0] != "" && !EndsValue(pieces[0][|pieces[0]| - 1])
    ensures CleanCuts(pieces)
  {
    assert CleanCuts(pieces[1..][1..][1..]);
    assert Concat(pieces[1..][1..]) == "" + Concat(pieces[1..][1..][1..]);
    assert CleanCuts(pieces[1..][1..]);
    assert CleanCuts(pieces[1..]);
  }
}
