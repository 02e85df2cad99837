/** What the Broker's fields and its health answer mean (src/sddgov/broker.py), in terms of the bytes of
    a digest, the fields of a time and the printable characters. */
module BrokerFields {
  import opened Common
  import opened Json
  import opened NonceLedger

  // ---------------------------------------------------------------- digests

  const HEX_DIGITS: string := "0123456789abcdef"

  ghost predicate AreBytes(bytes: seq<nat>) {
    forall k :: 0 <= k < |bytes| ==> bytes[k] < 256
  }

  /** Two lower-case digits a byte, the high one first. */
  ghost function HexOf(bytes: seq<nat>): (h: string)
    requires AreBytes(bytes)
    ensures |h| == 2 * |bytes|
  {
    if bytes == [] then "" else [HEX_DIGITS[bytes[0] / 16], HEX_DIGITS[bytes[0] % 16]] + HexOf(bytes[1..])
  }

  lemma DigitAt(c: char) returns (k: nat)
    requires IsHexDigit(c)
    ensures k < 16 && HEX_DIGITS[k] == c
  {
    k := if '0' <= c <= '9' then c as nat - '0' as nat else c as nat - 'a' as nat + 10;
  }

  lemma DigitsAreHex(k: nat)
    requires k < 16
    ensures IsHexDigit(HEX_DIGITS[k])
  {}

  lemma {:induction false} HexIsHex(bytes: seq<nat>)
    requires AreBytes(bytes)
    ensures forall k :: 0 <= k < |HexOf(bytes)| ==> IsHexDigit(HexOf(bytes)[k])
  {
    hide IsHexDigit;
    if bytes != [] {
      HexIsHex(bytes[1..]);
      DigitsAreHex(bytes[0] / 16);
      DigitsAreHex(bytes[0] % 16);
    }
  }

  lemma {:induction false} BytesOf(h: string) returns (bytes: seq<nat>)
    requires |h| % 2 == 0 && forall k :: 0 <= k < |h| ==> IsHexDigit(h[k])
    ensures |h| == 2 * |bytes| && AreBytes(bytes) && HexOf(bytes) == h
    decreases |h|
  {
    hide IsHexDigit, HEX_DIGITS;
    if h == "" {
      bytes := [];
    } else {
      var high := DigitAt(h[0]);
      var low := DigitAt(h[1]);
      var rest := BytesOf(h[2..]);
      bytes := [16 * high + low] + rest;
      HexFirst(16 * high + low, rest, high, low);
      assert h == [h[0], h[1]] + h[2..];
    }
  }

  lemma HexFirst(b: nat, rest: seq<nat>, high: nat, low: nat)
    requires high < 16 && low < 16 && b == 16 * high + low && AreBytes(rest)
    ensures AreBytes([b] + rest) && HexOf([b] + rest) == [HEX_DIGITS[high], HEX_DIGITS[low]] + HexOf(rest)
  {
    assert b / 16 == high && b % 16 == low;
    assert ([b] + rest)[1..] == rest;
  }

  /** A digest field is accepted exactly if it is the lower-case hexadecimal printing of 32 bytes. */
  lemma HashIff(h: string)
    ensures IsHash(h) <==> exists bytes :: |bytes| == 32 && AreBytes(bytes) && HexOf(bytes) == h
  {
    hide IsHexDigit, HexOf;
    if IsHash(h) {
      var bytes := BytesOf(h);
    }
    if bytes :| |bytes| == 32 && AreBytes(bytes) && HexOf(bytes) == h {
      HexIsHex(bytes);
    }
  }

  // ---------------------------------------------------------------- nonces

  /** The visible characters, in the rows of the ASCII chart. */
  const ROWS: seq<string> := [
    "!\"#$%&'()*+,-./", "0123456789:;<=>?", "@ABCDEFGHIJKLMNO", "PQRSTUVWXYZ[\\]^_", "`abcdefghijklmno", "pqrstuvwxyz{|}~"]

  ghost predicate Visible(c: char) {
    exists k :: 0 <= k < |ROWS| && c in ROWS[k]
  }

  lemma Signs(c: char)
    ensures c in "!\"#$%&'()*+,-./" <==> 0x21 <= c as int < 0x30
  {}

  lemma Figures(c: char)
    ensures c in "0123456789:;<=>?" <==> 0x30 <= c as int < 0x40
  {}

  lemma Capitals(c: char)
    ensures c in "@ABCDEFGHIJKLMNO" <==> 0x40 <= c as int < 0x50
  {}

  lemma LaterCapitals(c: char)
    ensures c in "PQRSTUVWXYZ[\\]^_" <==> 0x50 <= c as int < 0x60
  {}

  lemma Letters(c: char)
    ensures c in "`abcdefghijklmno" <==> 0x60 <= c as int < 0x70
  {}

  lemma LaterLetters(c: char)
    ensures c in "pqrstuvwxyz{|}~" <==> 0x70 <= c as int < 0x7F
  {}

  lemma InRow(c: char, k: nat)
    requires k < 6
    ensures c in ROWS[k] <==> 16 * k + 0x20 <= c as int < 16 * k + 0x30 && c != ' ' && c as int != 0x7F
  {
    hide ROWS;
    Signs(c);
    Figures(c);
    Capitals(c);
    LaterCapitals(c);
    Letters(c);
    LaterLetters(c);
    RowIs(k);
  }

  lemma RowIs(k: nat)
    requires k < 6
    ensures ROWS[k] == match k
                       case 0 => "!\"#$%&'()*+,-./"
                       case 1 => "0123456789:;<=>?"
                       case 2 => "@ABCDEFGHIJKLMNO"
                       case 3 => "PQRSTUVWXYZ[\\]^_"
                       case 4 => "`abcdefghijklmno"
                       case _ => "pqrstuvwxyz{|}~"
  {}

  lemma SixRows()
    ensures |ROWS| == 6
  {}

  lemma VisibleIff(c: char)
    ensures Visible(c) <==> 0x21 <= c as int <= 0x7E
  {
    hide ROWS;
    SixRows();
    if Visible(c) {
      var k :| 0 <= k < |ROWS| && c in ROWS[k];
      InRow(c, k);
    }
    if 0x21 <= c as int <= 0x7E {
      var k := c as nat / 16 - 2;
      InRow(c, k);
      assert c in ROWS[k];
    }
  }

  /** A nonce is accepted exactly if it is 12 to 256 characters that are visible in ASCII. */
  lemma NonceIff(n: string)
    ensures IsNonce(n) <==> 12 <= |n| <= 256 && forall c :: c in n ==> Visible(c)
  {
    hide Visible;
    forall c: char ensures Visible(c) <==> 0x21 <= c as int <= 0x7E {
      VisibleIff(c);
    }
    if 12 <= |n| <= 256 && forall c :: c in n ==> Visible(c) {
      assert forall k :: 0 <= k < |n| ==> n[k] in n;
    }
  }

  // ---------------------------------------------------------------- times

  /** Days before the first of January of a year, counted from that of year 1. */
  ghost function Before(year: nat): int
    requires year >= 1
  {
    365 * (year - 1) + (year - 1) / 4 - (year - 1) / 100 + (year - 1) / 400
  }

  const MONTHS: seq<nat> := [31, 28, 31, 30, 31, 30, 31, 31, 30, 31, 30, 31]

  /** Days of a month: the 29th of February is there if the year is one day longer than 365. */
  ghost function MonthDays(year: nat, month: nat): int
    requires year >= 1 && 1 <= month <= 12
  {
    MONTHS[month - 1] + (if month == 2 then Before(year + 1) - Before(year) - 365 else 0)
  }

  lemma DaysInIs(year: nat, month: nat)
    requires year >= 1 && 1 <= month <= 12
    ensures DaysIn(year, month) == MonthDays(year, month)
  {
    hide Before;
    if month == 2 {
      LeapYear(year);
    }
  }

  lemma LeapYear(year: nat)
    requires year >= 1
    ensures Before(year + 1) - Before(year) ==
            if year % 4 == 0 && (year % 100 != 0 || year % 400 == 0) then 366 else 365
  {
    Steps4(year - 1);
    Steps100(year - 1);
    Steps400(year - 1);
    Centuries(year);
    YearLength(year, year / 4 - (year - 1) / 4, year / 100 - (year - 1) / 100, year / 400 - (year - 1) / 400);
  }

  lemma YearLength(year: nat, fourth: int, century: int, fourthCentury: int)
    requires year >= 1
    requires fourth == year / 4 - (year - 1) / 4 && century == year / 100 - (year - 1) / 100
    requires fourthCentury == year / 400 - (year - 1) / 400
    ensures Before(year + 1) - Before(year) == 365 + fourth - century + fourthCentury
  {
    assert Before(year + 1) == 365 * year + year / 4 - year / 100 + year / 400;
  }

  lemma Centuries(year: nat)
    ensures year % 400 == 0 ==> year % 100 == 0
    ensures year % 100 == 0 ==> year % 4 == 0
  {
    if year % 400 == 0 {
      Hundreds(year, 4 * (year / 400));
    }
    if year % 100 == 0 {
      Fours(year, 25 * (year / 100));
    }
  }

  lemma Hundreds(year: nat, q: nat)
    requires year == 100 * q
    ensures year % 100 == 0
  {}

  lemma Fours(year: nat, q: nat)
    requires year == 4 * q
    ensures year % 4 == 0
  {}

  lemma Steps4(y: nat)
    ensures (y + 1) / 4 - y / 4 == if (y + 1) % 4 == 0 then 1 else 0
  {}

  lemma Steps100(y: nat)
    ensures (y + 1) / 100 - y / 100 == if (y + 1) % 100 == 0 then 1 else 0
  {}

  lemma Steps400(y: nat)
    ensures (y + 1) / 400 - y / 400 == if (y + 1) % 400 == 0 then 1 else 0
  {}

  ghost function Pow10(k: nat): nat {
    if k == 0 then 1 else 10 * Pow10(k - 1)
  }

  /** Decimal digits, zero-padded. */
  ghost function Padded(n: nat, width: nat): (t: string)
    ensures |t| == width
  {
    if width == 0 then "" else Padded(n / 10, width - 1) + [('0' as nat + n % 10) as char]
  }

  lemma {:induction false} PaddedReads(n: nat, width: nat)
    requires n < Pow10(width)
    ensures Digits(Padded(n, width)) && Number(Padded(n, width)) == n
  {
    if width > 0 {
      PaddedReads(n / 10, width - 1);
      var t := Padded(n, width);
      assert t[..width - 1] == Padded(n / 10, width - 1);
    }
  }

  lemma {:induction false} NumberPads(t: string)
    requires Digits(t)
    ensures Number(t) < Pow10(|t|) && Padded(Number(t), |t|) == t
    decreases |t|
  {
    if t != "" {
      NumberPads(t[..|t| - 1]);
      var n, d := Number(t[..|t| - 1]), t[|t| - 1] as nat - '0' as nat;
      assert (10 * n + d) / 10 == n && (10 * n + d) % 10 == d;
      assert t == t[..|t| - 1] + [t[|t| - 1]];
    }
  }

  datatype Time = Time(year: nat, month: nat, day: nat, hour: nat, minute: nat, second: nat)

  /** A date of the calendar, up to the year 9999, and a time of the day. */
  ghost predicate IsTime(t: Time) {
    && 1 <= t.year <= 9999 && 1 <= t.month <= 12 && 1 <= t.day <= MonthDays(t.year, t.month)
    && t.hour < 24 && t.minute < 60 && t.second < 60
  }

  ghost function TimeText(t: Time): string {
    Padded(t.year, 4) + "-" + Padded(t.month, 2) + "-" + Padded(t.day, 2) + "T"
    + Padded(t.hour, 2) + ":" + Padded(t.minute, 2) + ":" + Padded(t.second, 2) + "Z"
  }

  lemma TimeParts(t: Time)
    ensures
      var s := TimeText(t);
      && |s| == 20 && s[4] == '-' && s[7] == '-' && s[10] == 'T' && s[13] == ':' && s[16] == ':' && s[19] == 'Z'
      && s[..4] == Padded(t.year, 4) && s[5..7] == Padded(t.month, 2) && s[8..10] == Padded(t.day, 2)
      && s[11..13] == Padded(t.hour, 2) && s[14..16] == Padded(t.minute, 2) && s[17..19] == Padded(t.second, 2)
  {
    hide Padded;
  }

  lemma TwoDigits(n: nat)
    requires n < 100
    ensures Digits(Padded(n, 2)) && Number(Padded(n, 2)) == n
  {
    assert Pow10(2) == 10 * Pow10(1) && Pow10(1) == 10 * Pow10(0);
    PaddedReads(n, 2);
  }

  lemma FourDigits(n: nat)
    requires n < 10000
    ensures Digits(Padded(n, 4)) && Number(Padded(n, 4)) == n
  {
    FourPower();
    PaddedReads(n, 4);
  }

  lemma FourPower()
    ensures Pow10(2) == 100 && Pow10(4) == 10000
  {
    assert Pow10(1) == 10 * Pow10(0);
    assert Pow10(2) == 10 * Pow10(1);
    assert Pow10(3) == 10 * Pow10(2);
    assert Pow10(4) == 10 * Pow10(3);
  }

  lemma MonthDaysSmall(year: nat, month: nat)
    requires year >= 1 && 1 <= month <= 12
    ensures MonthDays(year, month) <= 31
  {
    DaysInIs(year, month);
  }

  /** A printed time is accepted. */
  lemma TimeIsStamp(t: Time)
    requires IsTime(t)
    ensures IsStamp(TimeText(t))
  {
    hide Padded, TimeText, Number, Digits, DaysIn, MonthDays;
    TimeParts(t);
    MonthDaysSmall(t.year, t.month);
    FourDigits(t.year);
    TwoDigits(t.month);
    TwoDigits(t.day);
    TwoDigits(t.hour);
    TwoDigits(t.minute);
    TwoDigits(t.second);
    DaysInIs(t.year, t.month);
  }

  /** What is accepted is a printed time. */
  lemma StampIsTime(s: string) returns (t: Time)
    requires IsStamp(s)
    ensures IsTime(t) && TimeText(t) == s
  {
    hide Padded, Number, Digits, DaysIn, MonthDays, Pow10;
    t := Time(Number(s[..4]), Number(s[5..7]), Number(s[8..10]), Number(s[11..13]), Number(s[14..16]), Number(s[17..19]));
    FourPower();
    NumberPads(s[..4]);
    NumberPads(s[5..7]);
    NumberPads(s[8..10]);
    NumberPads(s[11..13]);
    NumberPads(s[14..16]);
    NumberPads(s[17..19]);
    DaysInIs(t.year, t.month);
    Pieces(s);
  }

  lemma Pieces(s: string)
    requires |s| == 20
    ensures s == s[..4] + [s[4]] + s[5..7] + [s[7]] + s[8..10] + [s[10]] + s[11..13] + [s[13]] + s[14..16] + [s[16]] + s[17..19] + [s[19]]
  {}

  /** A time stamp is accepted exactly if it is the printing of a date of the calendar and a time of its day. */
  lemma StampIff(s: string)
    ensures IsStamp(s) <==> exists t :: IsTime(t) && TimeText(t) == s
  {
    hide IsStamp, IsTime, TimeText;
    if IsStamp(s) {
      var t := StampIsTime(s);
    }
    if t :| IsTime(t) && TimeText(t) == s {
      TimeIsStamp(t);
    }
  }

  // ---------------------------------------------------------------- health

  /** The request line of the health check. */
  lemma HealthLine()
    ensures ParseRequest("{\"action\":\"health\"}\n") == Some(map["action" := "health"])
  {
    hide ParseRequest, ObjectText, Collect;
    var ms := [Member("action", "health")];
    HealthText();
    assert "{\"action\":\"health\"}" + ['\n'] == "{\"action\":\"health\"}\n";
    OneLine(ms);
    OneMember();
  }

  lemma OneMember()
    ensures Collect([Member("action", "health")], map[]) == map["action" := "health"]
  {
    var ms := [Member("action", "health")];
    assert ms[1..] == [];
    assert Collect(ms[1..], map["action" := "health"]) == map["action" := "health"];
  }

  lemma OneLine(ms: seq<Member>)
    requires ms != [] && AllPrintable(ms) && '\n' !in ObjectText(ms) && |ObjectText(ms)| < MAX_REQUEST_BYTES
    ensures ParseRequest(ObjectText(ms) + ['\n']) == Some(Collect(ms, map[]))
  {
    hide ParseObject, ObjectText, Collect;
    var raw := ObjectText(ms) + ['\n'];
    assert raw[..|raw| - 1] == ObjectText(ms);
    ObjectRoundTrip(ms);
    assert raw[|raw| - 1] == '\n';
    assert forall k :: 0 <= k < |raw| - 1 ==> raw[k] == ObjectText(ms)[k];
  }

  lemma HealthText()
    ensures ObjectText([Member("action", "health")]) == "{\"action\":\"health\"}"
  {
    hide ObjectText;
    OneMemberText("action", "health");
    assert "{\"" + "action" + "\":\"" + "health" + "\"}" == "{\"action\":\"health\"}";
  }

  lemma OneMemberText(key: string, value: string)
    requires forall k :: 0 <= k < |key| ==> key[k] != '"' && key[k] != '\\'
    requires forall k :: 0 <= k < |value| ==> value[k] != '"' && value[k] != '\\'
    ensures ObjectText([Member(key, value)]) == "{\"" + key + "\":\"" + value + "\"}"
  {
    hide Escape;
    Unescaped(key);
    Unescaped(value);
    assert "\":\"" == ['"'] + [':'] + ['"'];
  }

  lemma {:induction false} Unescaped(v: string)
    requires forall k :: 0 <= k < |v| ==> v[k] != '"' && v[k] != '\\'
    ensures Escape(v) == v
  {
    if v != "" {
      Unescaped(v[1..]);
    }
  }

  /** READY is the answer to the health request and to nothing else, and given exactly if no append was torn;
      the ledger stays as it is. */
  lemma ReadyIff(g: Ledger, e: Event)
    requires Sound(g)
    ensures Next(g, e).1 == Ready <==> ParseRequest(e.raw) == Some(map["action" := "health"]) && g.torn == ""
    ensures ParseRequest(e.raw) == Some(map["action" := "health"]) ==> Next(g, e).0 == g && Next(g, e).1 in {Ready, Rejected}
  {
    hide Scan, Sound, RecordText, ParseRequest, IsHash, IsNonce;
    SoundScan(g);
  }

  /** The installer's health check succeeds exactly on a ledger that is not torn. */
  lemma HealthIff(g: Ledger, at: string, crash: Option<nat>)
    requires Sound(g)
    ensures Next(g, Event("{\"action\":\"health\"}\n", at, crash)) == (g, if g.torn == "" then Ready else Rejected)
  {
    hide Next, Sound, ParseRequest;
    HealthLine();
    ReadyIff(g, Event("{\"action\":\"health\"}\n", at, crash));
  }
}
