/** The Broker's append-only ledger of consumed nonces (src/sddgov/broker.py): one JSON record per
    line, re-read in full before every append, shared under an exclusive lock. The file is a
    string of one character per byte. */
module NonceLedger {
  import opened Common
  import opened Json

  const MAX_REQUEST_BYTES: nat := 2048
  const MAX_LEDGER_RECORD_BYTES: nat := 2048
  const MAX_LEDGER_BYTES: nat := 64 * 1024 * 1024

  // ---------------------------------------------------------------- fields

  predicate IsNonce(n: string) {
    12 <= |n| <= 256 && forall k :: 0 <= k < |n| ==> 0x21 <= n[k] as int <= 0x7E
  }

  predicate IsHexDigit(c: char) {
    '0' <= c <= '9' || 'a' <= c <= 'f'
  }

  predicate IsHash(h: string) {
    |h| == 64 && forall k :: 0 <= k < |h| ==> IsHexDigit(h[k])
  }

  predicate Digits(t: string) {
    forall k :: 0 <= k < |t| ==> '0' <= t[k] <= '9'
  }

  function Number(t: string): nat
    requires Digits(t)
  {
    if t == "" then 0 else 10 * Number(t[..|t| - 1]) + (t[|t| - 1] as nat - '0' as nat)
  }

  function DaysIn(year: nat, month: nat): nat {
    if month == 2 then (if year % 4 == 0 && (year % 100 != 0 || year % 400 == 0) then 29 else 28)
    else if month == 4 || month == 6 || month == 9 || month == 11 then 30 else 31
  }

  /** What the Broker's clock prints: YYYY-MM-DDThh:mm:ssZ, a real date. */
  predicate IsStamp(t: string) {
    && |t| == 20 && t[4] == '-' && t[7] == '-' && t[10] == 'T' && t[13] == ':' && t[16] == ':' && t[19] == 'Z'
    && Digits(t[..4]) && Digits(t[5..7]) && Digits(t[8..10]) && Digits(t[11..13]) && Digits(t[14..16]) && Digits(t[17..19])
    && 1 <= Number(t[..4]) && 1 <= Number(t[5..7]) <= 12
    && 1 <= Number(t[8..10]) <= DaysIn(Number(t[..4]), Number(t[5..7]))
    && Number(t[11..13]) < 24 && Number(t[14..16]) < 60 && Number(t[17..19]) < 60
  }

  datatype Record = Record(nonce: string, receipt: string, payload: string, at: string)

  predicate ValidRecord(r: Record) {
    IsNonce(r.nonce) && IsHash(r.receipt) && IsHash(r.payload) && IsStamp(r.at)
  }

  const RECORD_KEYS: set<string> := {"consumed_at", "nonce", "operation_payload_sha256", "receipt_sha256"}

  function Members(r: Record): (ms: seq<Member>)
    ensures ms != []
  {
    [Member("consumed_at", r.at), Member("nonce", r.nonce),
     Member("operation_payload_sha256", r.payload), Member("receipt_sha256", r.receipt)]
  }

  /** One record as the Broker appends it, keys in order, without its newline. */
  function RecordBody(r: Record): string {
    ObjectText(Members(r))
  }

  function RecordText(r: Record): string {
    RecordBody(r) + ['\n']
  }

  /** _valid_ledger_record over json.loads */
  function RecordOf(line: string): (r: Option<Record>)
    ensures r.Some? ==> ValidRecord(r.value)
  {
    var row := ParseObject(line);
    if row.None? || row.value.Keys != RECORD_KEYS then None else
      var r := Record(row.value["nonce"], row.value["receipt_sha256"],
                      row.value["operation_payload_sha256"], row.value["consumed_at"]);
      if ValidRecord(r) then Some(r) else None
  }

  // ---------------------------------------------------------------- reading the file back

  function FirstNewline(s: string): (k: nat)
    ensures k <= |s|
    ensures k < |s| ==> s[k] == '\n'
    ensures forall j :: 0 <= j < k ==> s[j] != '\n'
  {
    if s == "" || s[0] == '\n' then 0 else 1 + FirstNewline(s[1..])
  }

  /** readline(2049): up to and including a newline, at most 2049 bytes. */
  function LineEnd(s: string): (k: nat)
    ensures k <= |s| && (s != "" ==> k > 0)
  {
    var n := FirstNewline(s);
    var whole := if n < |s| then n + 1 else |s|;
    if whole <= MAX_LEDGER_RECORD_BYTES + 1 then whole else MAX_LEDGER_RECORD_BYTES + 1
  }

  /** The record of one line, if the line is acceptable. */
  function LineRecord(line: string, seen: set<string>): Option<Record> {
    if line == "" || |line| > MAX_LEDGER_RECORD_BYTES || line[|line| - 1] != '\n' then None else
      var r := RecordOf(line[..|line| - 1]);
      if r.None? || r.value.nonce in seen then None else r
  }

  function ScanFrom(s: string, seen: set<string>): Option<set<string>>
    decreases |s|
  {
    if s == "" then Some(seen) else
      var r := LineRecord(s[..LineEnd(s)], seen);
      if r.None? then None else ScanFrom(s[LineEnd(s)..], seen + {r.value.nonce})
  }

  /** _scan_locked */
  function Scan(content: string): Option<set<string>> {
    if |content| >= MAX_LEDGER_BYTES then None else ScanFrom(content, {})
  }

  // ---------------------------------------------------------------- requests

  datatype Answer = Ready | Rejected | Consumed | AlreadyConsumed | NoAnswer

  /** What a request did: the file afterwards, the answer, and the record it set out to append. */
  datatype Handled = Handled(content: string, answer: Answer, record: Option<Record>)

  function Cut(text: string, k: nat): string {
    if k <= |text| then text[..k] else text
  }

  /** NonceLedger.consume. `crash` is the number of bytes the system had taken when the Broker
      died; then nobody hears an answer. */
  function Consume(content: string, r: Record, crash: Option<nat>): Handled {
    var text := RecordText(r);
    if |content| + |text| >= MAX_LEDGER_BYTES then Handled(content, Rejected, None) else
      var seen := Scan(content);
      if seen.None? then Handled(content, Rejected, None)
      else if r.nonce in seen.value then Handled(content, AlreadyConsumed, None)
      else match crash
        case None => Handled(content + text, Consumed, Some(r))
        case Some(k) => Handled(content + Cut(text, k), NoAnswer, Some(r))
  }

  const REQUEST_KEYS: set<string> := {"action", "nonce", "receipt_sha256", "operation_payload_sha256"}

  /** _parse_request: exactly one newline, at the end, around a JSON object. */
  function ParseRequest(raw: string): Option<map<string, string>> {
    if raw == "" || |raw| > MAX_REQUEST_BYTES || FirstNewline(raw) != |raw| - 1 then None
    else ParseObject(raw[..|raw| - 1])
  }

  /** handle_request, an error of any kind being answered REJECTED. */
  function Handle(content: string, raw: string, now: string, crash: Option<nat>): Handled {
    var q := ParseRequest(raw);
    if q.None? then Handled(content, Rejected, None)
    else if q.value == map["action" := "health"] then
      Handled(content, if Scan(content).Some? then Ready else Rejected, None)
    else if q.value.Keys != REQUEST_KEYS || q.value["action"] != "consume" then Handled(content, Rejected, None)
    else
      var r := Record(q.value["nonce"], q.value["receipt_sha256"], q.value["operation_payload_sha256"], now);
      if IsNonce(r.nonce) && IsHash(r.receipt) && IsHash(r.payload) then Consume(content, r, crash)
      else Handled(content, Rejected, None)
  }

  // ---------------------------------------------------------------- a record reads back as itself

  lemma NoncePrintable(n: string)
    requires IsNonce(n)
    ensures Printable(n)
  {}

  lemma HashPrintable(h: string)
    requires IsHash(h)
    ensures Printable(h)
  {
    forall k | 0 <= k < |h| ensures 32 <= h[k] as int < 128 {
      assert IsHexDigit(h[k]);
    }
  }

  lemma StampPrintable(t: string)
    requires IsStamp(t)
    ensures Printable(t) && |t| == 20
  {
    forall k | 0 <= k < |t| ensures 32 <= t[k] as int < 128 {
      if k < 4 { assert t[k] == t[..4][k]; }
      else if 5 <= k < 7 { assert t[k] == t[5..7][k - 5]; }
      else if 8 <= k < 10 { assert t[k] == t[8..10][k - 8]; }
      else if 11 <= k < 13 { assert t[k] == t[11..13][k - 11]; }
      else if 14 <= k < 16 { assert t[k] == t[14..16][k - 14]; }
      else if 17 <= k < 19 { assert t[k] == t[17..19][k - 17]; }
    }
  }

  lemma MembersPrintable(r: Record)
    requires ValidRecord(r)
    ensures AllPrintable(Members(r))
  {
    hide IsStamp, IsHash, IsNonce;
    NoncePrintable(r.nonce);
    HashPrintable(r.receipt);
    HashPrintable(r.payload);
    StampPrintable(r.at);
  }

  lemma CollectRecord(r: Record)
    ensures Collect(Members(r), map[]) ==
            map["consumed_at" := r.at, "nonce" := r.nonce,
                "operation_payload_sha256" := r.payload, "receipt_sha256" := r.receipt]
  {
    var ms := Members(r);
    assert ms[1..][1..] == ms[2..] && ms[2..][1..] == ms[3..] && ms[3..][1..] == [];
    var m1 := map["consumed_at" := r.at];
    var m2 := m1["nonce" := r.nonce];
    var m3 := m2["operation_payload_sha256" := r.payload];
    assert Collect(ms[3..], m3) == Collect([], m3["receipt_sha256" := r.receipt]);
    assert Collect(ms[2..], m2) == Collect(ms[3..], m3);
    assert Collect(ms[1..], m1) == Collect(ms[2..], m2);
  }

  lemma MemberBound(m: Member)
    requires Printable(m.key) && Printable(m.value)
    ensures |MemberText(m)| <= 2 * |m.key| + 2 * |m.value| + 5 && Printable(MemberText(m))
  {
    EscapeBounds(m.key);
    EscapeBounds(m.value);
  }

  lemma {:induction false} MembersBound(ms: seq<Member>)
    requires ms != [] && AllPrintable(ms)
    ensures |MembersText(ms)| <= Weight(ms) && Printable(MembersText(ms))
    decreases |ms|
  {
    MemberBound(ms[0]);
    if |ms| > 1 {
      MembersBound(ms[1..]);
    }
  }

  function Weight(ms: seq<Member>): nat {
    if ms == [] then 0 else 2 * |ms[0].key| + 2 * |ms[0].value| + 6 + Weight(ms[1..])
  }

  lemma RecordWeight(r: Record)
    requires ValidRecord(r)
    ensures Weight(Members(r)) <= 2 * (20 + 256 + 64 + 64) + 2 * (11 + 5 + 24 + 14) + 24
  {
    hide IsStamp, IsHash, IsNonce;
    StampPrintable(r.at);
    assert |r.nonce| <= 256 && |r.payload| == 64 && |r.receipt| == 64 by { Lengths(r); }
    var ms := Members(r);
    assert ms[1..][1..] == ms[2..] && ms[2..][1..] == ms[3..] && ms[3..][1..] == [];
    assert Weight(ms[3..]) == 2 * 14 + 2 * 64 + 6;
    assert Weight(ms[2..]) == 2 * 24 + 2 * 64 + 6 + Weight(ms[3..]);
  }

  lemma Lengths(r: Record)
    requires ValidRecord(r)
    ensures |r.nonce| <= 256 && |r.payload| == 64 && |r.receipt| == 64
  {}

  /** Every record the Broker writes is one line of at most 2048 bytes, has no newline inside, and
      reads back as exactly itself. */
  lemma RecordRoundTrip(r: Record)
    requires ValidRecord(r)
    ensures RecordOf(RecordBody(r)) == Some(r)
    ensures |RecordText(r)| <= MAX_LEDGER_RECORD_BYTES
    ensures '\n' !in RecordBody(r)
  {
    hide ParseObject, ObjectText, ValidRecord;
    MembersPrintable(r);
    ObjectRoundTrip(Members(r));
    CollectRecord(r);
    BodyBounds(r);
    var row := ParseObject(RecordBody(r)).value;
    assert row.Keys == RECORD_KEYS;
  }

  lemma BodyBounds(r: Record)
    requires ValidRecord(r)
    ensures |RecordText(r)| <= MAX_LEDGER_RECORD_BYTES && '\n' !in RecordBody(r)
  {
    hide ValidRecord, MembersText, AllPrintable, Weight;
    MembersPrintable(r);
    MembersBound(Members(r));
    RecordWeight(r);
  }

  // ---------------------------------------------------------------- what a scan accepts

  /** Lines, each followed by its newline. */
  function Sheet(lines: seq<string>): string {
    if lines == [] then "" else lines[0] + ['\n'] + Sheet(lines[1..])
  }

  predicate GoodLine(l: string) {
    '\n' !in l && |l| < MAX_LEDGER_RECORD_BYTES && RecordOf(l).Some?
  }

  function NonceOf(l: string): string {
    if RecordOf(l).Some? then RecordOf(l).value.nonce else ""
  }

  /** Every line is a valid record and no nonce comes twice, nor is one of `seen`. */
  predicate GoodLines(lines: seq<string>, seen: set<string>) {
    && (forall k :: 0 <= k < |lines| ==> GoodLine(lines[k]) && NonceOf(lines[k]) !in seen)
    && (forall j, k :: 0 <= j < k < |lines| ==> NonceOf(lines[j]) != NonceOf(lines[k]))
  }

  function Nonces(lines: seq<string>): set<string> {
    set k | 0 <= k < |lines| :: NonceOf(lines[k])
  }

  lemma LineOf(l: string, rest: string)
    requires '\n' !in l && |l| < MAX_LEDGER_RECORD_BYTES
    ensures LineEnd(l + ['\n'] + rest) == |l| + 1
  {
    var s := l + ['\n'] + rest;
    assert s[|l|] == '\n';
    assert forall j :: 0 <= j < |l| ==> s[j] == l[j];
  }

  lemma GoodRest(lines: seq<string>, seen: set<string>)
    requires lines != []
    ensures GoodLines(lines, seen) <==>
            GoodLine(lines[0]) && NonceOf(lines[0]) !in seen && GoodLines(lines[1..], seen + {NonceOf(lines[0])})
  {
    hide GoodLine, NonceOf;
    var rest := lines[1..];
    if GoodLine(lines[0]) && NonceOf(lines[0]) !in seen && GoodLines(rest, seen + {NonceOf(lines[0])}) {
      forall k | 0 <= k < |lines| ensures GoodLine(lines[k]) && NonceOf(lines[k]) !in seen {
        if k > 0 { assert lines[k] == rest[k - 1]; }
      }
      forall j, k | 0 <= j < k < |lines| ensures NonceOf(lines[j]) != NonceOf(lines[k]) {
        assert lines[k] == rest[k - 1];
        if j > 0 { assert lines[j] == rest[j - 1]; }
      }
    }
  }

  lemma NoncesRest(lines: seq<string>, seen: set<string>)
    requires lines != []
    ensures seen + Nonces(lines) == (seen + {NonceOf(lines[0])}) + Nonces(lines[1..])
  {
    hide NonceOf;
    var rest := lines[1..];
    forall n | n in Nonces(lines) ensures n == NonceOf(lines[0]) || n in Nonces(rest) {
      var k :| 0 <= k < |lines| && n == NonceOf(lines[k]);
      if k > 0 { assert rest[k - 1] == lines[k]; }
    }
    forall n | n in Nonces(rest) ensures n in Nonces(lines) {
      var k :| 0 <= k < |rest| && n == NonceOf(rest[k]);
      assert lines[k + 1] == rest[k];
    }
  }

  /** A scan walks good lines and goes on with what follows them. */
  lemma {:induction false} ScanWalks(lines: seq<string>, tail: string, seen: set<string>)
    requires GoodLines(lines, seen)
    ensures ScanFrom(Sheet(lines) + tail, seen) == ScanFrom(tail, seen + Nonces(lines))
    decreases |lines|
  {
    hide RecordOf, GoodLines, LineEnd, Nonces;
    if lines == [] {
      assert Sheet(lines) + tail == tail;
      assert Nonces(lines) == {} by { EmptyNonces(); }
      assert seen + {} == seen;
    } else {
      var l := lines[0];
      var rest := Sheet(lines[1..]) + tail;
      var s := l + ['\n'] + rest;
      assert Sheet(lines) + tail == s;
      GoodRest(lines, seen);
      LineOf(l, rest);
      assert s[..|l| + 1] == l + ['\n'] && s[|l| + 1..] == rest;
      assert (l + ['\n'])[..|l|] == l;
      ScanWalks(lines[1..], tail, seen + {NonceOf(l)});
      NoncesRest(lines, seen);
    }
  }

  lemma EmptyNonces()
    ensures Nonces([]) == {}
  {}

  lemma LineSplit(s: string, seen: set<string>)
    requires s != "" && LineRecord(s[..LineEnd(s)], seen).Some?
    ensures var l := s[..LineEnd(s) - 1];
            GoodLine(l) && NonceOf(l) == LineRecord(s[..LineEnd(s)], seen).value.nonce && NonceOf(l) !in seen
            && s == l + ['\n'] + s[LineEnd(s)..]
  {
    hide RecordOf;
    var line := s[..LineEnd(s)];
    assert line[..|line| - 1] == s[..LineEnd(s) - 1];
  }

  lemma {:induction false} ScanReads(s: string, seen: set<string>) returns (lines: seq<string>)
    requires ScanFrom(s, seen).Some?
    ensures GoodLines(lines, seen) && s == Sheet(lines)
    ensures ScanFrom(s, seen) == Some(seen + Nonces(lines))
    decreases |s|
  {
    hide LineRecord, LineEnd, GoodLines, GoodLine, Nonces, NonceOf;
    if s == "" {
      lines := [];
      assert Nonces(lines) == {} by { EmptyNonces(); }
      NoLines(seen);
      assert seen + {} == seen;
    } else {
      LineSplit(s, seen);
      var l := s[..LineEnd(s) - 1];
      var rest := ScanReads(s[LineEnd(s)..], seen + {NonceOf(l)});
      lines := [l] + rest;
      assert lines[1..] == rest;
      GoodRest(lines, seen);
      NoncesRest(lines, seen);
    }
  }

  lemma NoLines(seen: set<string>)
    ensures GoodLines([], seen)
  {}

  /** A scan succeeds exactly on a file below the capacity that is a list of valid one-line records
      with distinct nonces, and then returns exactly those nonces. */
  lemma ScanExact(content: string, seen: set<string>)
    ensures Scan(content) == Some(seen) <==>
            && |content| < MAX_LEDGER_BYTES
            && exists lines :: GoodLines(lines, {}) && content == Sheet(lines) && seen == Nonces(lines)
  {
    hide ScanFrom, Sheet, GoodLines, Nonces;
    if Scan(content) == Some(seen) {
      var lines := ScanReads(content, {});
      assert {} + Nonces(lines) == Nonces(lines);
    }
    if |content| < MAX_LEDGER_BYTES && exists lines :: GoodLines(lines, {}) && content == Sheet(lines) && seen == Nonces(lines) {
      var lines :| GoodLines(lines, {}) && content == Sheet(lines) && seen == Nonces(lines);
      ScanWalks(lines, "", {});
      assert Sheet(lines) + "" == Sheet(lines) && {} + Nonces(lines) == Nonces(lines);
      assert ScanFrom("", Nonces(lines)) == Some(Nonces(lines)) by { ScanNothing(Nonces(lines)); }
    }
  }

  lemma ScanNothing(seen: set<string>)
    ensures ScanFrom("", seen) == Some(seen)
  {}

  /** A tail without a newline makes a scan refuse. */
  lemma TornTailRefused(lines: seq<string>, torn: string)
    requires GoodLines(lines, {}) && torn != "" && '\n' !in torn
    ensures Scan(Sheet(lines) + torn).None?
  {
    hide RecordOf, GoodLines, Nonces;
    ScanWalks(lines, torn, {});
    assert torn[..LineEnd(torn)][LineEnd(torn) - 1] == torn[LineEnd(torn) - 1];
  }

  // ---------------------------------------------------------------- whole runs

  /** The ledger file and what it is made of: the records completed so far and, after a crash in
      the middle of an append, the torn beginning of one more. The Broker sees only the file. */
  datatype Ledger = Ledger(content: string, written: seq<Record>, torn: string)

  function Bodies(rs: seq<Record>): seq<string> {
    seq(|rs|, k requires 0 <= k < |rs| => RecordBody(rs[k]))
  }

  /** A nonempty strict prefix of a record, newline included. */
  ghost predicate IsTorn(torn: string) {
    torn != "" && exists r :: ValidRecord(r) && torn <= RecordBody(r)
  }

  lemma TornHasNoNewline(torn: string)
    requires IsTorn(torn)
    ensures '\n' !in torn
  {
    hide ValidRecord, RecordBody;
    var r :| ValidRecord(r) && torn <= RecordBody(r);
    BodyBounds(r);
    assert forall k :: 0 <= k < |torn| ==> torn[k] == RecordBody(r)[k];
  }

  ghost predicate Sound(g: Ledger) {
    && (forall k :: 0 <= k < |g.written| ==> ValidRecord(g.written[k]))
    && (forall j, k :: 0 <= j < k < |g.written| ==> g.written[j].nonce != g.written[k].nonce)
    && g.content == Sheet(Bodies(g.written)) + g.torn
    && (g.torn == "" || IsTorn(g.torn))
    && |g.content| < MAX_LEDGER_BYTES
  }

  datatype Event = Event(raw: string, now: string, crash: Option<nat>)

  /** One request. The answer and the new file are functions of the old file alone. */
  function Next(g: Ledger, e: Event): (Ledger, Answer) {
    var h := Handle(g.content, e.raw, e.now, e.crash);
    if h.record.None? || h.content == g.content then (g.(content := h.content), h.answer)
    else if h.content == g.content + RecordText(h.record.value)
    then (Ledger(h.content, g.written + [h.record.value], g.torn), h.answer)
    else (Ledger(h.content, g.written, if |g.content| <= |h.content| then h.content[|g.content|..] else ""), h.answer)
  }

  function After(g: Ledger, events: seq<Event>): Ledger
    decreases |events|
  {
    if events == [] then g else Next(After(g, events[..|events| - 1]), events[|events| - 1]).0
  }

  const EMPTY: Ledger := Ledger("", [], "")

  lemma {:induction false} SheetAppend(lines: seq<string>, l: string)
    ensures Sheet(lines + [l]) == Sheet(lines) + (l + ['\n'])
    decreases |lines|
  {
    if lines == [] {
      assert (lines + [l])[1..] == [];
      assert Sheet(lines + [l]) == l + ['\n'];
    } else {
      SheetAppend(lines[1..], l);
      assert (lines + [l])[1..] == lines[1..] + [l];
    }
  }

  lemma BodiesGood(rs: seq<Record>)
    requires forall k :: 0 <= k < |rs| ==> ValidRecord(rs[k])
    requires forall j, k :: 0 <= j < k < |rs| ==> rs[j].nonce != rs[k].nonce
    ensures GoodLines(Bodies(rs), {})
    ensures forall n :: n in Nonces(Bodies(rs)) <==> exists k :: 0 <= k < |rs| && rs[k].nonce == n
  {
    hide RecordBody, RecordOf, ValidRecord;
    var lines := Bodies(rs);
    forall k | 0 <= k < |lines| ensures GoodLine(lines[k]) && NonceOf(lines[k]) == rs[k].nonce {
      RecordRoundTrip(rs[k]);
      assert lines[k] == RecordBody(rs[k]);
      assert |RecordText(rs[k])| == |lines[k]| + 1;
    }
    forall k | 0 <= k < |rs| ensures rs[k].nonce in Nonces(lines) {
      assert NonceOf(lines[k]) == rs[k].nonce;
    }
  }

  /** What a scan of a sound ledger says. */
  lemma SoundScan(g: Ledger)
    requires Sound(g)
    ensures g.torn != "" ==> Scan(g.content).None?
    ensures g.torn == "" ==> Scan(g.content).Some?
    ensures g.torn == "" ==>
              forall n :: n in Scan(g.content).value <==> exists k :: 0 <= k < |g.written| && g.written[k].nonce == n
  {
    hide ValidRecord, Bodies, ScanFrom, Scan, Nonces, GoodLines, IsTorn;
    BodiesGood(g.written);
    if g.torn == "" {
      assert Sheet(Bodies(g.written)) + "" == Sheet(Bodies(g.written));
      ScanExact(g.content, Nonces(Bodies(g.written)));
    } else {
      TornHasNoNewline(g.torn);
      TornTailRefused(Bodies(g.written), g.torn);
    }
  }

  /** What a request may do to a sound ledger: nothing, a whole new record, or a torn one. */
  lemma HandleCases(g: Ledger, e: Event)
    requires Sound(g) && IsStamp(e.now)
    ensures
      var h := Handle(g.content, e.raw, e.now, e.crash);
      && (h.record.None? ==> h.content == g.content && h.answer != Consumed && h.answer != NoAnswer)
      && (h.record.Some? ==>
            var r := h.record.value;
            && ValidRecord(r) && g.torn == "" && |g.content| + |RecordText(r)| < MAX_LEDGER_BYTES
            && (forall k :: 0 <= k < |g.written| ==> g.written[k].nonce != r.nonce)
            && (h.answer == Consumed || h.answer == NoAnswer)
            && (h.answer == Consumed ==> h.content == g.content + RecordText(r))
            && exists k :: 0 <= k <= |RecordText(r)| && h.content == g.content + RecordText(r)[..k])
      && (h.answer == AlreadyConsumed || h.answer == Ready ==> g.torn == "")
  {
    hide Scan, RecordText, IsStamp, IsHash, IsNonce, ParseRequest, Sound;
    assert IsStamp(e.now);
    SoundScan(g);
    var h := Handle(g.content, e.raw, e.now, e.crash);
    if h.record.Some? {
      var text := RecordText(h.record.value);
      var k := if e.crash.Some? && e.crash.value <= |text| then e.crash.value else |text|;
      assert text[..|text|] == text;
      assert h.content == g.content + text[..k];
    }
  }

  lemma TornPart(r: Record, k: nat)
    requires ValidRecord(r) && 0 < k < |RecordText(r)|
    ensures IsTorn(RecordText(r)[..k])
  {
    hide ValidRecord, RecordBody;
    assert RecordText(r)[..k] == RecordBody(r)[..k];
  }

  lemma NextKeeps(g: Ledger, e: Event)
    requires Sound(g) && IsStamp(e.now)
    ensures Sound(Next(g, e).0) && g.written <= Next(g, e).0.written
  {
    hide Handle, ValidRecord, RecordBody, IsStamp, Sheet, Bodies, IsTorn;
    HandleCases(g, e);
    var h := Handle(g.content, e.raw, e.now, e.crash);
    if h.record.Some? && h.content != g.content {
      var r := h.record.value;
      var text := RecordText(r);
      var k: nat :| k <= |text| && h.content == g.content + text[..k];
      if h.content == g.content + text {
        assert g.torn == "" && g.content == Sheet(Bodies(g.written)) + "";
        SheetAppend(Bodies(g.written), RecordBody(r));
        BodiesAppend(g.written, r);
      } else {
        TornPart(r, k);
        assert h.content[|g.content|..] == text[..k];
      }
    }
  }

  lemma BodiesAppend(rs: seq<Record>, r: Record)
    ensures Bodies(rs + [r]) == Bodies(rs) + [RecordBody(r)]
  {
    hide RecordBody;
  }

  /** After any sequence of requests, whatever their bytes and wherever the Broker died, the file is
      a list of valid records with distinct nonces, below the capacity, or that followed by the torn
      beginning of one record. Records once complete stay, in order. */
  lemma {:induction false} EveryRunIsSound(events: seq<Event>)
    requires forall k :: 0 <= k < |events| ==> IsStamp(events[k].now)
    ensures Sound(After(EMPTY, events))
    decreases |events|
  {
    hide Sound, IsStamp, Next;
    if events == [] {
      EmptyIsSound();
    } else {
      EveryRunIsSound(events[..|events| - 1]);
      NextKeeps(After(EMPTY, events[..|events| - 1]), events[|events| - 1]);
    }
  }

  lemma EmptyIsSound()
    ensures Sound(EMPTY)
  {
    assert Bodies([]) == [];
  }

  /** A torn ledger is closed for good: every request, of any kind, leaves the file as it is and is
      answered REJECTED. */
  lemma TornLedgerIsFrozen(g: Ledger, e: Event)
    requires Sound(g) && g.torn != "" && IsStamp(e.now)
    ensures Next(g, e) == (g, Rejected)
  {
    hide Handle, Sound, IsStamp;
    HandleCases(g, e);
    TornAnswer(g, e);
  }

  lemma TornAnswer(g: Ledger, e: Event)
    requires Sound(g) && g.torn != "" && IsStamp(e.now)
    ensures Handle(g.content, e.raw, e.now, e.crash).answer == Rejected
  {
    hide Scan, Sound, RecordText, ParseRequest, IsStamp;
    SoundScan(g);
  }

  /** A nonce that is in the ledger is never consumed again. */
  lemma ConsumedIsFresh(g: Ledger, e: Event)
    requires Sound(g) && IsStamp(e.now) && Next(g, e).1 == Consumed
    ensures
      var after := Next(g, e).0.written;
      && |after| == |g.written| + 1 && after[..|g.written|] == g.written
      && forall k :: 0 <= k < |g.written| ==> g.written[k].nonce != after[|g.written|].nonce
  {
    hide Handle, Sound, IsStamp, RecordText;
    HandleCases(g, e);
    var h := Handle(g.content, e.raw, e.now, e.crash);
    assert h.content != g.content by { TextNotEmpty(h.record.value); }
  }

  /** On a ledger that is not torn and not full, a valid request is answered by its nonce alone:
      CONSUMED if no record has it, ALREADY_CONSUMED if one does. A full ledger rejects. */
  lemma ConsumeExact(g: Ledger, r: Record)
    requires Sound(g) && g.torn == ""
    ensures
      var answer := Consume(g.content, r, None).answer;
      if |g.content| + |RecordText(r)| >= MAX_LEDGER_BYTES then answer == Rejected
      else if exists k :: 0 <= k < |g.written| && g.written[k].nonce == r.nonce then answer == AlreadyConsumed
      else answer == Consumed
  {
    hide Scan, Sound, RecordText;
    SoundScan(g);
  }

  lemma TextNotEmpty(r: Record)
    ensures RecordText(r) != ""
  {}

  // ---------------------------------------------------------------- the procedures

  class NonceLedgerFile {
    var content: string

    constructor ()
      ensures content == ""
    {
      content := "";
    }

    method ScanLocked() returns (seen: Option<set<string>>)
      ensures seen == Scan(content)
    {
      hide LineRecord, LineEnd, RecordOf, FirstNewline;
      if |content| >= MAX_LEDGER_BYTES {
        return None;
      }
      var offset, nonces := 0, {};
      while offset < |content|
        invariant 0 <= offset <= |content|
        invariant ScanFrom(content, {}) == ScanFrom(content[offset..], nonces)
      {
        var rest := content[offset..];
        var length := LineEnd(rest);
        var r := LineRecord(rest[..length], nonces);
        if r.None? {
          return None;
        }
        assert rest[length..] == content[offset + length..];
        offset, nonces := offset + length, nonces + {r.value.nonce};
      }
      return Some(nonces);
    }

    method ConsumeNonce(r: Record, crash: Option<nat>) returns (answer: Answer)
      modifies this
      ensures
        var h := Consume(old(content), r, crash);
        content == h.content && answer == h.answer
    {
      var text := RecordText(r);
      if |content| + |text| >= MAX_LEDGER_BYTES {
        return Rejected;
      }
      var seen := ScanLocked();
      if seen.None? {
        return Rejected;
      }
      if r.nonce in seen.value {
        return AlreadyConsumed;
      }
      if crash.Some? {
        content := content + Cut(text, crash.value);
        return NoAnswer;
      }
      content := content + text;
      return Consumed;
    }

    method HandleRequest(raw: string, now: string, crash: Option<nat>) returns (answer: Answer)
      modifies this
      ensures
        var h := Handle(old(content), raw, now, crash);
        content == h.content && answer == h.answer
    {
      var q := ParseRequest(raw);
      if q.None? {
        return Rejected;
      }
      if q.value == map["action" := "health"] {
        var seen := ScanLocked();
        return if seen.Some? then Ready else Rejected;
      }
      if q.value.Keys != REQUEST_KEYS || q.value["action"] != "consume" {
        return Rejected;
      }
      var r := Record(q.value["nonce"], q.value["receipt_sha256"], q.value["operation_payload_sha256"], now);
      if !IsNonce(r.nonce) || !IsHash(r.receipt) || !IsHash(r.payload) {
        return Rejected;
      }
      answer := ConsumeNonce(r, crash);
    }
  }
}
