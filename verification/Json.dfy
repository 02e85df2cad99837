/** The JSON the Broker reads and writes: one object whose members are ASCII strings.

    `ParseObject` follows json.loads on such texts: white space anywhere between tokens, every
    escape, a repeated key keeping its last value. Anything else is refused, as the Broker's own
    field checks refuse it. `ObjectText` follows json.dumps with compact separators. */
module Json {
  import opened Common

  datatype Parsed = Parsed(value: string, rest: string)
  datatype Escaped = Escaped(c: char, length: nat)
  datatype Member = Member(key: string, value: string)
  datatype MemberParsed = MemberParsed(member: Member, rest: string)

  // ---------------------------------------------------------------- reading

  predicate IsSpace(c: char) {
    c == ' ' || c == '\t' || c == '\n' || c == '\r'
  }

  function SkipSpace(s: string): (r: string)
    ensures |r| <= |s|
    ensures r != "" ==> !IsSpace(r[0])
  {
    if s != "" && IsSpace(s[0]) then SkipSpace(s[1..]) else s
  }

  function HexValue(c: char): Option<nat> {
    if '0' <= c <= '9' then Some(c as nat - '0' as nat)
    else if 'a' <= c <= 'f' then Some(c as nat - 'a' as nat + 10)
    else if 'A' <= c <= 'F' then Some(c as nat - 'A' as nat + 10)
    else None
  }

  /** The escape sequence `s` starts with. */
  function EscapeAt(s: string): (r: Option<Escaped>)
    ensures r.Some? ==> 2 <= r.value.length <= |s|
  {
    if |s| < 2 || s[0] != '\\' then None
    else if s[1] == '"' || s[1] == '\\' || s[1] == '/' then Some(Escaped(s[1], 2))
    else if s[1] == 'b' then Some(Escaped(8 as char, 2))
    else if s[1] == 'f' then Some(Escaped(12 as char, 2))
    else if s[1] == 'n' then Some(Escaped('\n', 2))
    else if s[1] == 'r' then Some(Escaped('\r', 2))
    else if s[1] == 't' then Some(Escaped('\t', 2))
    else if s[1] == 'u' && |s| >= 6 && s[2] == '0' && s[3] == '0' then
      var high, low := HexValue(s[4]), HexValue(s[5]);
      if high.Some? && low.Some? && 16 * high.value + low.value < 128
      then Some(Escaped((16 * high.value + low.value) as char, 6)) else None
    else None
  }

  function Prefixed(c: char, r: Option<Parsed>): Option<Parsed> {
    if r.None? then None else Some(Parsed([c] + r.value.value, r.value.rest))
  }

  /** The rest of a string whose opening quote has been read. */
  function ParseText(s: string): (r: Option<Parsed>)
    ensures r.Some? ==> |r.value.rest| < |s|
    decreases |s|
  {
    if s == "" then None
    else if s[0] == '"' then Some(Parsed("", s[1..]))
    else if s[0] == '\\' then
      var e := EscapeAt(s);
      if e.None? then None else Prefixed(e.value.c, ParseText(s[e.value.length..]))
    else if 32 <= s[0] as int < 128 then Prefixed(s[0], ParseText(s[1..]))
    else None
  }

  function ParseQuoted(s: string): (r: Option<Parsed>)
    ensures r.Some? ==> |r.value.rest| < |s|
  {
    if s != "" && s[0] == '"' then ParseText(s[1..]) else None
  }

  function ParseMember(s: string): (r: Option<MemberParsed>)
    ensures r.Some? ==> |r.value.rest| < |s|
  {
    var key := ParseQuoted(SkipSpace(s));
    if key.None? then None else
      var colon := SkipSpace(key.value.rest);
      if colon == "" || colon[0] != ':' then None else
        var value := ParseQuoted(SkipSpace(colon[1..]));
        if value.None? then None
        else Some(MemberParsed(Member(key.value.value, value.value.value), value.value.rest))
  }

  function ParseMembers(s: string, acc: map<string, string>): Option<map<string, string>>
    decreases |s|
  {
    var m := ParseMember(s);
    if m.None? then None else
      var all := acc[m.value.member.key := m.value.member.value];
      var rest := SkipSpace(m.value.rest);
      if rest == "" then None
      else if rest[0] == ',' then ParseMembers(rest[1..], all)
      else if rest[0] == '}' && SkipSpace(rest[1..]) == "" then Some(all)
      else None
  }

  function ParseObject(s: string): Option<map<string, string>> {
    var t := SkipSpace(s);
    if t == "" || t[0] != '{' then None else
      var inner := SkipSpace(t[1..]);
      if inner != "" && inner[0] == '}' then (if SkipSpace(inner[1..]) == "" then Some(map[]) else None)
      else ParseMembers(t[1..], map[])
  }

  // ---------------------------------------------------------------- writing

  predicate Printable(v: string) {
    forall k :: 0 <= k < |v| ==> 32 <= v[k] as int < 128
  }

  function Escape(v: string): string {
    if v == "" then ""
    else if v[0] == '"' || v[0] == '\\' then ['\\', v[0]] + Escape(v[1..])
    else [v[0]] + Escape(v[1..])
  }

  function Quoted(v: string): string {
    ['"'] + Escape(v) + ['"']
  }

  function MemberText(m: Member): string {
    Quoted(m.key) + [':'] + Quoted(m.value)
  }

  function MembersText(ms: seq<Member>): string
    requires ms != []
  {
    if |ms| == 1 then MemberText(ms[0]) else MemberText(ms[0]) + [','] + MembersText(ms[1..])
  }

  function ObjectText(ms: seq<Member>): string
    requires ms != []
  {
    ['{'] + MembersText(ms) + ['}']
  }

  function Collect(ms: seq<Member>, acc: map<string, string>): map<string, string>
    decreases |ms|
  {
    if ms == [] then acc else Collect(ms[1..], acc[ms[0].key := ms[0].value])
  }

  predicate AllPrintable(ms: seq<Member>) {
    forall k :: 0 <= k < |ms| ==> Printable(ms[k].key) && Printable(ms[k].value)
  }

  // ---------------------------------------------------------------- reading what was written

  lemma EscapedCharParses(c: char, tail: string)
    requires c == '"' || c == '\\'
    ensures ParseText(['\\', c] + tail) == Prefixed(c, ParseText(tail))
  {
    var s := ['\\', c] + tail;
    assert s[2..] == tail;
  }

  lemma PlainCharParses(c: char, tail: string)
    requires c != '"' && c != '\\'
    ensures ParseText([c] + tail) == if 32 <= c as int < 128 then Prefixed(c, ParseText(tail)) else None
  {
    hide EscapeAt;
    var s := [c] + tail;
    assert s[1..] == tail;
  }

  function Read(v: string, rest: string): Option<Parsed> {
    if Printable(v) then Some(Parsed(v, rest)) else None
  }

  lemma QuoteEnds(rest: string)
    ensures ParseText(['"'] + rest) == Some(Parsed("", rest))
  {
    hide EscapeAt;
    assert (['"'] + rest)[1..] == rest;
  }

  lemma ReadFirst(v: string, rest: string)
    requires v != ""
    ensures Read(v, rest) == if 32 <= v[0] as int < 128 then Prefixed(v[0], Read(v[1..], rest)) else None
  {
    assert v == [v[0]] + v[1..];
    assert Printable(v) <==> 32 <= v[0] as int < 128 && Printable(v[1..]);
  }

  /** A written string reads back as itself, or not at all if it holds a character outside
      printable ASCII. */
  lemma {:induction false} EscapeParses(v: string, rest: string)
    ensures ParseText(Escape(v) + ['"'] + rest) == Read(v, rest)
    decreases |v|
  {
    hide ParseText, Prefixed, Escape;
    if v == "" {
      EscapeNothing(rest);
      QuoteEnds(rest);
    } else {
      hide Read;
      EscapeParses(v[1..], rest);
      ReadFirst(v, rest);
      EscapeFirst(v, rest);
      var tail := Escape(v[1..]) + ['"'] + rest;
      if v[0] == '"' || v[0] == '\\' {
        EscapedCharParses(v[0], tail);
      } else {
        PlainCharParses(v[0], tail);
      }
    }
  }

  lemma EscapeNothing(rest: string)
    ensures Escape("") + ['"'] + rest == ['"'] + rest
  {}

  lemma EscapeFirst(v: string, rest: string)
    requires v != ""
    ensures Escape(v) + ['"'] + rest ==
            (if v[0] == '"' || v[0] == '\\' then ['\\', v[0]] else [v[0]]) + (Escape(v[1..]) + ['"'] + rest)
  {}

  lemma QuotedParses(v: string, rest: string)
    ensures ParseQuoted(Quoted(v) + rest) == Read(v, rest)
  {
    EscapeParses(v, rest);
    assert (Quoted(v) + rest)[1..] == Escape(v) + ['"'] + rest;
  }

  lemma MemberParses(m: Member, rest: string)
    ensures ParseMember(MemberText(m) + rest) ==
            if Printable(m.key) && Printable(m.value) then Some(MemberParsed(m, rest)) else None
  {
    hide ParseQuoted, Quoted;
    assert Quoted(m.key)[0] == '"' && Quoted(m.value)[0] == '"' by { QuotedFront(m.key); QuotedFront(m.value); }
    var afterKey := [':'] + (Quoted(m.value) + rest);
    assert MemberText(m) + rest == Quoted(m.key) + afterKey;
    QuotedParses(m.key, afterKey);
    assert afterKey[1..] == Quoted(m.value) + rest;
    QuotedParses(m.value, rest);
  }

  lemma QuotedFront(v: string)
    ensures Quoted(v) != "" && Quoted(v)[0] == '"'
  {}

  lemma {:induction false} MembersParse(ms: seq<Member>, acc: map<string, string>)
    requires ms != []
    ensures ParseMembers(MembersText(ms) + ['}'], acc) == if AllPrintable(ms) then Some(Collect(ms, acc)) else None
    decreases |ms|
  {
    hide ParseMember, MemberText, Printable;
    var s := MembersText(ms) + ['}'];
    if |ms| == 1 {
      MemberParses(ms[0], ['}']);
      assert ms[1..] == [];
    } else {
      var rest := [','] + (MembersText(ms[1..]) + ['}']);
      assert s == MemberText(ms[0]) + rest;
      MemberParses(ms[0], rest);
      assert rest[1..] == MembersText(ms[1..]) + ['}'];
      MembersParse(ms[1..], acc[ms[0].key := ms[0].value]);
      assert AllPrintable(ms) <==> Printable(ms[0].key) && Printable(ms[0].value) && AllPrintable(ms[1..]) by {
        FirstPrintable(ms);
      }
    }
  }

  lemma FirstPrintable(ms: seq<Member>)
    requires ms != []
    ensures AllPrintable(ms) <==> Printable(ms[0].key) && Printable(ms[0].value) && AllPrintable(ms[1..])
  {
    hide Printable;
    forall k | 0 < k < |ms| ensures ms[k] == ms[1..][k - 1] {}
  }

  /** Reading an object that was written gives exactly its members back, or is refused if some key
      or value holds a character outside printable ASCII. */
  lemma ObjectRoundTrip(ms: seq<Member>)
    requires ms != []
    ensures ParseObject(ObjectText(ms)) == if AllPrintable(ms) then Some(Collect(ms, map[])) else None
  {
    hide ParseMembers;
    var s := ObjectText(ms);
    assert s[1..] == MembersText(ms) + ['}'];
    assert s[1..][0] == '"' by { QuotedFront(ms[0].key); }
    MembersParse(ms, map[]);
  }

  // ---------------------------------------------------------------- lengths and newlines

  lemma {:induction false} EscapeBounds(v: string)
    requires Printable(v)
    ensures |v| <= |Escape(v)| <= 2 * |v| && Printable(Escape(v))
    decreases |v|
  {
    if v != "" {
      EscapeBounds(v[1..]);
    }
  }
}
