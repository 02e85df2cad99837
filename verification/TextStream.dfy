/** The reading loop of `_stream_text_at` (src/sddgov/redaction.py): bytes arrive in chunks of any
    size, are decoded as UTF-8, and are handed to the redactor line by line under two limits.

    Text is a sequence of code points; the redactor is any state machine over lines that may refuse. */
module TextStream {
  import opened Common

  type Text = seq<nat>

  const MAX_REDACTION_FILE_BYTES: nat := 10 * 1024 * 1024
  const MAX_LOGICAL_LINE_CHARACTERS: nat := 1024 * 1024
  const NEWLINE: nat := 10

  /** A redactor with states R: one line at a time, then the end. None is a refusal. */
  datatype Redactor<!R> = Redactor(start: R, line: (R, Text) -> Option<(R, Text)>, finish: R -> Option<Text>)

  // ---------------------------------------------------------------- UTF-8 (RFC 3629), byte by byte

  /** Between characters, or in one: bytes still needed, bits so far, and the range the next byte
      must lie in. */
  datatype Decoder = Between | Within(needed: nat, bits: nat, low: int, high: int)

  datatype Decoded = Decoded(d: Decoder, text: Text)

  function Lead(b: byte): Option<Decoder> {
    var v := b as int;
    if 0xC2 <= v <= 0xDF then Some(Within(1, v - 0xC0, 0x80, 0xBF))
    else if v == 0xE0 then Some(Within(2, 0, 0xA0, 0xBF))
    else if v == 0xED then Some(Within(2, 0x0D, 0x80, 0x9F))
    else if 0xE1 <= v <= 0xEF then Some(Within(2, v - 0xE0, 0x80, 0xBF))
    else if v == 0xF0 then Some(Within(3, 0, 0x90, 0xBF))
    else if 0xF1 <= v <= 0xF3 then Some(Within(3, v - 0xF0, 0x80, 0xBF))
    else if v == 0xF4 then Some(Within(3, 4, 0x80, 0x8F))
    else None
  }

  function DecodeByte(d: Decoder, b: byte): Option<Decoded> {
    var v := b as int;
    match d
    case Between =>
      if v < 0x80 then Some(Decoded(Between, [v]))
      else var lead := Lead(b); if lead.None? then None else Some(Decoded(lead.value, []))
    case Within(needed, bits, low, high) =>
      if !(low <= v <= high) || v < 0x80 then None
      else
        var all := bits * 64 + (v - 0x80);
        if needed <= 1 then Some(Decoded(Between, [all])) else Some(Decoded(Within(needed - 1, all, 0x80, 0xBF), []))
  }

  function DecodeFrom(d: Decoder, bytes: Bytes): Option<Decoded>
    decreases |bytes|
  {
    if bytes == [] then Some(Decoded(d, [])) else
      var first := DecodeByte(d, bytes[0]);
      if first.None? then None else
        var rest := DecodeFrom(first.value.d, bytes[1..]);
        if rest.None? then None else Some(Decoded(rest.value.d, first.value.text + rest.value.text))
  }

  /** bytes.decode("utf-8") */
  function Decode(bytes: Bytes): Option<Text> {
    var all := DecodeFrom(Between, bytes);
    if all.None? || all.value.d != Between then None else Some(all.value.text)
  }

  lemma {:induction false} DecodeSplit(d: Decoder, a: Bytes, b: Bytes)
    ensures
      var first := DecodeFrom(d, a);
      DecodeFrom(d, a + b) ==
        if first.None? then None else
          var rest := DecodeFrom(first.value.d, b);
          if rest.None? then None else Some(Decoded(rest.value.d, first.value.text + rest.value.text))
    decreases |a|
  {
    if a == [] {
      assert a + b == b;
      if DecodeFrom(d, b).Some? {
        assert [] + DecodeFrom(d, b).value.text == DecodeFrom(d, b).value.text;
      }
    } else {
      var one := DecodeByte(d, a[0]);
      assert (a + b)[1..] == a[1..] + b;
      if one.Some? {
        DecodeSplit(one.value.d, a[1..], b);
        var first := DecodeFrom(one.value.d, a[1..]);
        if first.Some? && DecodeFrom(first.value.d, b).Some? {
          var t, u, v := one.value.text, first.value.text, DecodeFrom(first.value.d, b).value.text;
          assert t + (u + v) == (t + u) + v;
        }
      }
    }
  }

  // ---------------------------------------------------------------- the decoder is exact

  predicate IsScalar(c: nat) {
    c < 0xD800 || 0xE000 <= c <= 0x10FFFF
  }

  /** The encoding of one code point. */
  function EncodeOne(c: nat): Bytes
    requires IsScalar(c)
  {
    var high := c / 64;
    var higher := high / 64;
    if c < 0x80 then [c as byte]
    else if c < 0x800 then [(0xC0 + high) as byte, (0x80 + c % 64) as byte]
    else if c < 0x1_0000 then [(0xE0 + higher) as byte, (0x80 + high % 64) as byte, (0x80 + c % 64) as byte]
    else [(0xF0 + higher / 64) as byte, (0x80 + higher % 64) as byte, (0x80 + high % 64) as byte, (0x80 + c % 64) as byte]
  }

  ghost predicate Scalars(t: Text) {
    forall k :: 0 <= k < |t| ==> IsScalar(t[k])
  }

  function Encode(t: Text): Bytes
    requires Scalars(t)
  {
    if t == [] then [] else EncodeOne(t[0]) + Encode(t[1..])
  }

  /** One more byte at the front. */
  lemma FeedFront(d: Decoder, b: byte, rest: Bytes)
    ensures
      var next := DecodeByte(d, b);
      DecodeFrom(d, [b] + rest) ==
        if next.None? then None else
          var after := DecodeFrom(next.value.d, rest);
          if after.None? then None else Some(Decoded(after.value.d, next.value.text + after.value.text))
  {
    assert ([b] + rest)[1..] == rest;
  }

  lemma DecodeOne(c: nat, rest: Bytes)
    requires IsScalar(c)
    ensures
      var after := DecodeFrom(Between, rest);
      DecodeFrom(Between, EncodeOne(c) + rest) ==
        if after.None? then None else Some(Decoded(after.value.d, [c] + after.value.text))
  {
    hide DecodeFrom, DecodeByte;
    var e := EncodeOne(c);
    var after := DecodeFrom(Between, rest);
    if c < 0x80 {
      FeedFront(Between, e[0], rest);
      Step1(c);
    } else if c < 0x800 {
      Step2(c);
      assert e + rest == [e[0]] + ([e[1]] + rest);
      FeedFront(Between, e[0], [e[1]] + rest);
      FeedFront(Within(1, c / 64, 0x80, 0xBF), e[1], rest);
    } else if c < 0x1_0000 {
      Step3(c);
      assert e + rest == [e[0]] + ([e[1]] + ([e[2]] + rest));
      FeedFront(Between, e[0], [e[1]] + ([e[2]] + rest));
      FeedFront(Lead(e[0]).value, e[1], [e[2]] + rest);
      FeedFront(Within(1, c / 64, 0x80, 0xBF), e[2], rest);
    } else {
      Step4(c);
      assert e + rest == [e[0]] + ([e[1]] + ([e[2]] + ([e[3]] + rest)));
      FeedFront(Between, e[0], [e[1]] + ([e[2]] + ([e[3]] + rest)));
      FeedFront(Lead(e[0]).value, e[1], [e[2]] + ([e[3]] + rest));
      FeedFront(Within(2, c / 64 / 64, 0x80, 0xBF), e[2], [e[3]] + rest);
      FeedFront(Within(1, c / 64, 0x80, 0xBF), e[3], rest);
    }
    if after.Some? {
      assert [] + ([c] + after.value.text) == [c] + after.value.text;
      assert [] + ([] + ([c] + after.value.text)) == [c] + after.value.text;
      assert [] + ([] + ([] + ([c] + after.value.text))) == [c] + after.value.text;
    }
  }

  lemma Step1(c: nat)
    requires c < 0x80
    ensures DecodeByte(Between, EncodeOne(c)[0]) == Some(Decoded(Between, [c]))
  {}

  lemma Step2(c: nat)
    requires 0x80 <= c < 0x800
    ensures
      var e := EncodeOne(c);
      && DecodeByte(Between, e[0]) == Some(Decoded(Within(1, c / 64, 0x80, 0xBF), []))
      && DecodeByte(Within(1, c / 64, 0x80, 0xBF), e[1]) == Some(Decoded(Between, [c]))
  {
    assert c == c / 64 * 64 + c % 64;
  }

  lemma Step3(c: nat)
    requires IsScalar(c) && 0x800 <= c < 0x1_0000
    ensures
      var e := EncodeOne(c);
      && Lead(e[0]).Some? && DecodeByte(Between, e[0]) == Some(Decoded(Lead(e[0]).value, []))
      && DecodeByte(Lead(e[0]).value, e[1]) == Some(Decoded(Within(1, c / 64, 0x80, 0xBF), []))
      && DecodeByte(Within(1, c / 64, 0x80, 0xBF), e[2]) == Some(Decoded(Between, [c]))
  {}

  lemma Step4(c: nat)
    requires 0x1_0000 <= c <= 0x10FFFF
    ensures
      var e := EncodeOne(c);
      && Lead(e[0]).Some? && DecodeByte(Between, e[0]) == Some(Decoded(Lead(e[0]).value, []))
      && DecodeByte(Lead(e[0]).value, e[1]) == Some(Decoded(Within(2, c / 64 / 64, 0x80, 0xBF), []))
      && DecodeByte(Within(2, c / 64 / 64, 0x80, 0xBF), e[2]) == Some(Decoded(Within(1, c / 64, 0x80, 0xBF), []))
      && DecodeByte(Within(1, c / 64, 0x80, 0xBF), e[3]) == Some(Decoded(Between, [c]))
  {}

  lemma {:induction false} DecodeEncoded(t: Text)
    requires Scalars(t)
    ensures DecodeFrom(Between, Encode(t)) == Some(Decoded(Between, t))
    decreases |t|
  {
    if t != [] {
      DecodeEncoded(t[1..]);
      DecodeOne(t[0], Encode(t[1..]));
      assert [t[0]] + t[1..] == t;
    }
  }

  /** Six more bits: they come off again. */
  lemma SixBits(high: nat, low: int)
    requires 0 <= low < 64
    ensures (high * 64 + low) / 64 == high && (high * 64 + low) % 64 == low
  {}

  lemma Back2(b0: byte, b1: byte)
    requires Lead(b0).Some? && Lead(b0).value.needed == 1 && DecodeByte(Lead(b0).value, b1).Some?
    ensures
      var r := DecodeByte(Lead(b0).value, b1).value;
      r.d == Between && |r.text| == 1 && IsScalar(r.text[0]) && EncodeOne(r.text[0]) == [b0, b1]
  {
    var bits := Lead(b0).value.bits;
    SixBits(bits, b1 as int - 0x80);
  }

  lemma Back3(b0: byte, b1: byte, b2: byte)
    requires Lead(b0).Some? && Lead(b0).value.needed == 2 && DecodeByte(Lead(b0).value, b1).Some?
    requires var d := DecodeByte(Lead(b0).value, b1).value.d; d.Within? && DecodeByte(d, b2).Some?
    ensures DecodeByte(Lead(b0).value, b1).value.text == []
    ensures
      var r := DecodeByte(DecodeByte(Lead(b0).value, b1).value.d, b2).value;
      r.d == Between && |r.text| == 1 && IsScalar(r.text[0]) && EncodeOne(r.text[0]) == [b0, b1, b2]
  {
    var bits := Lead(b0).value.bits;
    var high := bits * 64 + (b1 as int - 0x80);
    SixBits(bits, b1 as int - 0x80);
    SixBits(high, b2 as int - 0x80);
  }

  lemma Back4(b0: byte, b1: byte, b2: byte, b3: byte)
    requires Lead(b0).Some? && Lead(b0).value.needed == 3 && DecodeByte(Lead(b0).value, b1).Some?
    requires var d := DecodeByte(Lead(b0).value, b1).value.d; d.Within? && DecodeByte(d, b2).Some?
    requires var d := DecodeByte(DecodeByte(Lead(b0).value, b1).value.d, b2).value.d; d.Within? && DecodeByte(d, b3).Some?
    ensures DecodeByte(Lead(b0).value, b1).value.text == []
    ensures DecodeByte(DecodeByte(Lead(b0).value, b1).value.d, b2).value.text == []
    ensures
      var r := DecodeByte(DecodeByte(DecodeByte(Lead(b0).value, b1).value.d, b2).value.d, b3).value;
      r.d == Between && |r.text| == 1 && IsScalar(r.text[0]) && EncodeOne(r.text[0]) == [b0, b1, b2, b3]
  {
    hide EncodeOne;
    FourBytes(Lead(b0).value.bits, b1 as int - 0x80, b2 as int - 0x80, b3 as int - 0x80);
  }

  /** A code point of four bytes, from its bits. */
  lemma FourBytes(bits: nat, x1: int, x2: int, x3: int)
    requires 0 <= x1 < 64 && 0 <= x2 < 64 && 0 <= x3 < 64 && bits <= 4
    requires (bits == 0 ==> x1 >= 16) && (bits == 4 ==> x1 < 16)
    ensures
      var c := ((bits * 64 + x1) * 64 + x2) * 64 + x3;
      && 0x1_0000 <= c <= 0x10FFFF
      && EncodeOne(c) == [(0xF0 + bits) as byte, (0x80 + x1) as byte, (0x80 + x2) as byte, (0x80 + x3) as byte]
  {
    SixBits(bits, x1);
    SixBits(bits * 64 + x1, x2);
    SixBits((bits * 64 + x1) * 64 + x2, x3);
  }

  /** The first character of bytes that decode, and the bytes after it. */
  lemma FirstCharacter(b: Bytes) returns (c: nat, n: nat)
    requires b != [] && DecodeFrom(Between, b).Some? && DecodeFrom(Between, b).value.d == Between
    ensures 0 < n <= |b| && IsScalar(c) && EncodeOne(c) == b[..n]
    ensures DecodeFrom(Between, b[n..]).Some? && DecodeFrom(Between, b[n..]).value.d == Between
    ensures DecodeFrom(Between, b).value.text == [c] + DecodeFrom(Between, b[n..]).value.text
  {
    hide DecodeFrom;
    assert b == [b[0]] + b[1..];
    FeedFront(Between, b[0], b[1..]);
    if b[0] as int < 0x80 {
      c, n := b[0] as int, 1;
      assert b[..1] == [b[0]];
    } else {
      var lead := Lead(b[0]).value;
      MoreNeeded(lead, b[1..]);
      assert b[1..] == [b[1]] + b[2..];
      FeedFront(lead, b[1], b[2..]);
      if lead.needed == 1 {
        Back2(b[0], b[1]);
        c, n := DecodeByte(lead, b[1]).value.text[0], 2;
        assert b[..2] == [b[0], b[1]];
      } else {
        var second := DecodeByte(lead, b[1]).value.d;
        MoreNeeded(second, b[2..]);
        assert b[2..] == [b[2]] + b[3..];
        FeedFront(second, b[2], b[3..]);
        if lead.needed == 2 {
          Back3(b[0], b[1], b[2]);
          c, n := DecodeByte(second, b[2]).value.text[0], 3;
          assert b[..3] == [b[0], b[1], b[2]];
        } else {
          var third := DecodeByte(second, b[2]).value.d;
          MoreNeeded(third, b[3..]);
          assert b[3..] == [b[3]] + b[4..];
          FeedFront(third, b[3], b[4..]);
          Back4(b[0], b[1], b[2], b[3]);
          c, n := DecodeByte(third, b[3]).value.text[0], 4;
          assert b[..4] == [b[0], b[1], b[2], b[3]];
        }
      }
    }
  }

  /** In the middle of a character the text cannot end. */
  lemma MoreNeeded(d: Decoder, b: Bytes)
    requires d.Within? && DecodeFrom(d, b).Some? && DecodeFrom(d, b).value.d == Between
    ensures b != []
  {}

  lemma {:induction false} DecodedIsEncoded(b: Bytes)
    requires DecodeFrom(Between, b).Some? && DecodeFrom(Between, b).value.d == Between
    ensures Scalars(DecodeFrom(Between, b).value.text) && Encode(DecodeFrom(Between, b).value.text) == b
    decreases |b|
  {
    hide DecodeFrom;
    if b == [] {
      assert DecodeFrom(Between, b).value.text == [] by { DecodeNothing(); }
    } else {
      var c, n := FirstCharacter(b);
      DecodedIsEncoded(b[n..]);
      var t := DecodeFrom(Between, b).value.text;
      assert t[0] == c && t[1..] == DecodeFrom(Between, b[n..]).value.text;
      assert b[..n] + b[n..] == b;
    }
  }

  lemma DecodeNothing()
    ensures DecodeFrom(Between, []) == Some(Decoded(Between, []))
  {}

  /** The decoder accepts exactly the encodings of sequences of code points, and inverts them. */
  lemma DecodeExact(b: Bytes, t: Text)
    ensures Decode(b) == Some(t) <==> Scalars(t) && b == Encode(t)
  {
    hide DecodeFrom, Encode;
    if Decode(b) == Some(t) {
      DecodedIsEncoded(b);
    }
    if Scalars(t) && b == Encode(t) {
      DecodeEncoded(t);
    }
  }

  // ---------------------------------------------------------------- the whole text at once

  function FindNewline(t: Text): (k: nat)
    ensures k <= |t| && (k < |t| ==> t[k] == NEWLINE)
    ensures forall j :: 0 <= j < k ==> t[j] != NEWLINE
  {
    if t == [] || t[0] == NEWLINE then 0 else 1 + FindNewline(t[1..])
  }

  function Before(out: Text, r: Option<Text>): Option<Text> {
    if r.None? then None else Some(out + r.value)
  }

  /** What is left once no newline remains: a last line if there is one, then the end. */
  function FinishText<R>(red: Redactor<R>, s: R, t: Text): Option<Text> {
    if |t| > MAX_LOGICAL_LINE_CHARACTERS then None
    else if t == [] then red.finish(s)
    else
      var step := red.line(s, t);
      if step.None? then None else Before(step.value.1, red.finish(step.value.0))
  }

  /** Redact a text line by line, from a redactor state. */
  function RedactText<R>(red: Redactor<R>, s: R, t: Text): Option<Text>
    decreases |t|
  {
    var k := FindNewline(t);
    if k == |t| then FinishText(red, s, t)
    else if k > MAX_LOGICAL_LINE_CHARACTERS then None
    else
      var step := red.line(s, t[..k + 1]);
      if step.None? then None else Before(step.value.1, RedactText(red, step.value.0, t[k + 1..]))
  }

  /** The verdict and the output as a function of the bytes alone. */
  function RedactBytes<R>(red: Redactor<R>, bytes: Bytes): Option<Text> {
    if |bytes| > MAX_REDACTION_FILE_BYTES then None else
      var t := Decode(bytes);
      if t.None? then None else RedactText(red, red.start, t.value)
  }

  // ---------------------------------------------------------------- lines of a growing text

  lemma FindIn(a: Text, b: Text)
    ensures FindNewline(a) < |a| ==> FindNewline(a + b) == FindNewline(a)
    ensures FindNewline(a) == |a| ==> FindNewline(a + b) >= |a|
  {
    var k := FindNewline(a + b);
    assert forall j :: 0 <= j < |a| ==> (a + b)[j] == a[j];
    if FindNewline(a) < |a| {
      assert (a + b)[FindNewline(a)] == NEWLINE;
    }
  }

  /** Where a redactor stands after the whole lines of a text: its state, the line begun, the output. */
  datatype Place<!R> = Place(s: R, pending: Text, out: Text)

  /** Hand over every whole line; None if one is too long or refused, or the line begun is too long. */
  function TakeLines<R>(red: Redactor<R>, p: Place<R>): Option<Place<R>>
    decreases |p.pending|
  {
    var k := FindNewline(p.pending);
    if k == |p.pending| then (if |p.pending| > MAX_LOGICAL_LINE_CHARACTERS then None else Some(p))
    else if k > MAX_LOGICAL_LINE_CHARACTERS then None
    else
      var step := red.line(p.s, p.pending[..k + 1]);
      if step.None? then None else TakeLines(red, Place(step.value.0, p.pending[k + 1..], p.out + step.value.1))
  }

  /** More text leaves the first whole line, and what follows it, where they are. */
  lemma FirstLineStays(a: Text, b: Text)
    requires FindNewline(a) < |a|
    ensures var k := FindNewline(a); FindNewline(a + b) == k && (a + b)[..k + 1] == a[..k + 1] && (a + b)[k + 1..] == a[k + 1..] + b
  {
    FindIn(a, b);
  }

  /** A line begun that is too long stays too long. */
  lemma LongStaysLong<R>(red: Redactor<R>, p: Place<R>, more: Text)
    requires FindNewline(p.pending) == |p.pending| > MAX_LOGICAL_LINE_CHARACTERS
    ensures TakeLines(red, p.(pending := p.pending + more)) == None
  {
    FindIn(p.pending, more);
  }

  /** Taking the lines of more text from where one stands is taking them all at once. */
  lemma {:induction false} TakeMore<R>(red: Redactor<R>, p: Place<R>, more: Text)
    ensures
      var all, first := TakeLines(red, p.(pending := p.pending + more)), TakeLines(red, p);
      all == if first.None? then None else TakeLines(red, first.value.(pending := first.value.pending + more))
    decreases |p.pending|
  {
    hide FindNewline;
    var k := FindNewline(p.pending);
    if k < |p.pending| {
      FirstLineStays(p.pending, more);
      var step := red.line(p.s, p.pending[..k + 1]);
      if k <= MAX_LOGICAL_LINE_CHARACTERS && step.Some? {
        TakeMore(red, Place(step.value.0, p.pending[k + 1..], p.out + step.value.1), more);
      }
    } else if k > MAX_LOGICAL_LINE_CHARACTERS {
      LongStaysLong(red, p, more);
    }
  }

  lemma BeforeTwice(a: Text, b: Text, r: Option<Text>)
    ensures Before(a, Before(b, r)) == Before(a + b, r)
  {
    if r.Some? {
      assert a + (b + r.value) == (a + b) + r.value;
    }
  }

  /** Redacting a text is taking its lines and finishing. */
  lemma {:induction false} TakeThenFinish<R>(red: Redactor<R>, p: Place<R>)
    ensures
      var q := TakeLines(red, p);
      Before(p.out, RedactText(red, p.s, p.pending)) ==
        if q.None? then None else Before(q.value.out, FinishText(red, q.value.s, q.value.pending))
    decreases |p.pending|
  {
    hide FinishText, FindNewline, TakeLines, RedactText, Before;
    OneLine(red, p);
    var k := FindNewline(p.pending);
    if k == |p.pending| {
      TooLongToFinish(red, p.s, p.pending);
      BeforeNone(p.out);
    } else {
      var step := red.line(p.s, p.pending[..k + 1]);
      if k <= MAX_LOGICAL_LINE_CHARACTERS && step.Some? {
        TakeThenFinish(red, Place(step.value.0, p.pending[k + 1..], p.out + step.value.1));
        BeforeTwice(p.out, step.value.1, RedactText(red, step.value.0, p.pending[k + 1..]));
      } else {
        BeforeNone(p.out);
      }
    }
  }

  /** Both definitions, one line at a time. */
  lemma OneLine<R>(red: Redactor<R>, p: Place<R>)
    ensures
      var k := FindNewline(p.pending);
      if k == |p.pending| then
        && TakeLines(red, p) == (if k > MAX_LOGICAL_LINE_CHARACTERS then None else Some(p))
        && RedactText(red, p.s, p.pending) == FinishText(red, p.s, p.pending)
      else
        var step := red.line(p.s, p.pending[..k + 1]);
        if k > MAX_LOGICAL_LINE_CHARACTERS || step.None? then TakeLines(red, p) == None && RedactText(red, p.s, p.pending) == None
        else
          && TakeLines(red, p) == TakeLines(red, Place(step.value.0, p.pending[k + 1..], p.out + step.value.1))
          && RedactText(red, p.s, p.pending) == Before(step.value.1, RedactText(red, step.value.0, p.pending[k + 1..]))
  {
    hide FinishText, FindNewline, Before;
  }

  lemma BeforeNone(out: Text)
    ensures Before(out, None) == None
  {}

  lemma TooLongToFinish<R>(red: Redactor<R>, s: R, t: Text)
    ensures |t| > MAX_LOGICAL_LINE_CHARACTERS ==> FinishText(red, s, t) == None
  {}

  // ---------------------------------------------------------------- outcomes

  /** What the caller sees: the output; a decoding error, which blocks the artifact; or any other
      error, which aborts the redaction. */
  datatype Outcome = Done(text: Text) | NotText | Aborted

  function Begun<R>(red: Redactor<R>, t: Text): Place<R> {
    Place(red.start, t, [])
  }

  /** The error the bytes read so far raise, if any: size first, then decoding, then lines. */
  function ErrorOf<R>(red: Redactor<R>, bytes: Bytes): Option<Outcome> {
    if |bytes| > MAX_REDACTION_FILE_BYTES then Some(Aborted)
    else
      var text := DecodeFrom(Between, bytes);
      if text.None? then Some(NotText)
      else if TakeLines(red, Begun(red, text.value.text)).None? then Some(Aborted)
      else None
  }

  /** The end of a file whose bytes raised no error. */
  function EndOf<R>(red: Redactor<R>, bytes: Bytes): Outcome {
    var text := DecodeFrom(Between, bytes);
    if text.None? || text.value.d != Between then NotText else
      var p := TakeLines(red, Begun(red, text.value.text));
      if p.None? then Aborted else
        var last := Before(p.value.out, FinishText(red, p.value.s, p.value.pending));
        if last.None? then Aborted else Done(last.value)
  }

  /** Chunk after chunk: the first error met ends it. */
  function Outcomes<R>(red: Redactor<R>, done: Bytes, chunks: seq<Bytes>): Outcome
    decreases |chunks|
  {
    if chunks == [] then EndOf(red, done) else
      var error := ErrorOf(red, done + chunks[0]);
      if error.Some? then error.value else Outcomes(red, done + chunks[0], chunks[1..])
  }

  /** A file divided into these chunks. */
  function StreamOf<R>(red: Redactor<R>, chunks: seq<Bytes>): Outcome {
    Outcomes(red, [], chunks)
  }

  /** The state of the loop is that of the bytes read so far. */
  ghost predicate Standing<R>(red: Redactor<R>, done: Bytes, d: Decoder, p: Place<R>) {
    && |done| <= MAX_REDACTION_FILE_BYTES
    && DecodeFrom(Between, done).Some? && DecodeFrom(Between, done).value.d == d
    && TakeLines(red, Begun(red, DecodeFrom(Between, done).value.text)) == Some(p)
  }

  lemma StandingStart<R>(red: Redactor<R>)
    ensures Standing(red, [], Between, Begun(red, []))
  {}

  /** One more chunk, read from where the loop stands. */
  lemma StandingMore<R>(red: Redactor<R>, done: Bytes, d: Decoder, p: Place<R>, chunk: Bytes)
    requires Standing(red, done, d, p) && |done + chunk| <= MAX_REDACTION_FILE_BYTES
    ensures DecodeFrom(d, chunk).None? ==> ErrorOf(red, done + chunk) == Some(NotText)
    ensures DecodeFrom(d, chunk).Some? ==>
              var more := DecodeFrom(d, chunk).value;
              var q := TakeLines(red, p.(pending := p.pending + more.text));
              if q.None? then ErrorOf(red, done + chunk) == Some(Aborted)
              else ErrorOf(red, done + chunk) == None && Standing(red, done + chunk, more.d, q.value)
  {
    hide TakeLines, DecodeFrom;
    DecodeSplit(Between, done, chunk);
    var text := DecodeFrom(Between, done).value.text;
    if DecodeFrom(d, chunk).Some? {
      TakeMore(red, Begun(red, text), DecodeFrom(d, chunk).value.text);
    }
  }

  /** The loop of _stream_text_at. */
  method StreamText<R>(red: Redactor<R>, chunks: seq<Bytes>) returns (result: Outcome)
    requires forall k :: 0 <= k < |chunks| ==> chunks[k] != []
    ensures result == StreamOf(red, chunks)
  {
    hide TakeLines, DecodeFrom, FinishText, ErrorOf, EndOf;
    var size, d, p := 0, Between, Begun(red, []);
    var i := 0;
    ghost var done: Bytes := [];
    StandingStart(red);
    assert chunks[0..] == chunks;
    while i < |chunks|
      invariant 0 <= i <= |chunks| && size == |done| && Standing(red, done, d, p)
      invariant StreamOf(red, chunks) == Outcomes(red, done, chunks[i..])
    {
      var chunk := chunks[i];
      assert chunks[i..][0] == chunk && chunks[i..][1..] == chunks[i + 1..];
      size := size + |chunk|;
      if size > MAX_REDACTION_FILE_BYTES {
        assert ErrorOf(red, done + chunk) == Some(Aborted) by { TooLarge(red, done + chunk); }
        return Aborted;
      }
      StandingMore(red, done, d, p, chunk);
      var more := DecodeFrom(d, chunk);
      if more.None? {
        return NotText;
      }
      var q := HandOver(red, p.(pending := p.pending + more.value.text));
      if q.None? {
        return Aborted;
      }
      done := done + chunk;
      d, p := more.value.d, q.value;
      i := i + 1;
    }
    assert chunks[i..] == [];
    StandingEnd(red, done, d, p);
    if d != Between {
      return NotText;
    }
    var last := Before(p.out, FinishText(red, p.s, p.pending));
    return if last.None? then Aborted else Done(last.value);
  }

  /** The inner loop: newline after newline. */
  method HandOver<R>(red: Redactor<R>, start: Place<R>) returns (result: Option<Place<R>>)
    ensures result == TakeLines(red, start)
  {
    var p := start;
    while FindNewline(p.pending) < |p.pending|
      invariant TakeLines(red, start) == TakeLines(red, p)
      decreases |p.pending|
    {
      var newline := FindNewline(p.pending);
      if newline > MAX_LOGICAL_LINE_CHARACTERS {
        return None;
      }
      var step := red.line(p.s, p.pending[..newline + 1]);
      if step.None? {
        return None;
      }
      p := Place(step.value.0, p.pending[newline + 1..], p.out + step.value.1);
    }
    return if |p.pending| > MAX_LOGICAL_LINE_CHARACTERS then None else Some(p);
  }

  lemma TooLarge<R>(red: Redactor<R>, bytes: Bytes)
    requires |bytes| > MAX_REDACTION_FILE_BYTES
    ensures ErrorOf(red, bytes) == Some(Aborted)
  {}

  lemma StandingEnd<R>(red: Redactor<R>, done: Bytes, d: Decoder, p: Place<R>)
    requires Standing(red, done, d, p)
    ensures
      var last := Before(p.out, FinishText(red, p.s, p.pending));
      EndOf(red, done) == if d != Between then NotText else if last.None? then Aborted else Done(last.value)
  {
    hide TakeLines, DecodeFrom, FinishText;
  }

  // ---------------------------------------------------------------- what depends on the division

  /** Errors do not go away as more bytes come. */
  lemma ErrorsStay<R>(red: Redactor<R>, a: Bytes, b: Bytes)
    requires ErrorOf(red, a).Some?
    ensures ErrorOf(red, a + b).Some?
  {
    hide TakeLines, DecodeFrom;
    DecodeSplit(Between, a, b);
    var first := DecodeFrom(Between, a);
    if first.Some? && DecodeFrom(first.value.d, b).Some? {
      TakeMore(red, Begun(red, first.value.text), DecodeFrom(first.value.d, b).value.text);
    }
  }

  function Joined(chunks: seq<Bytes>): Bytes {
    if chunks == [] then [] else chunks[0] + Joined(chunks[1..])
  }

  /** The outcome is the error of some prefix, or the end if no prefix has one. */
  lemma {:induction false} OutcomeOfPrefix<R>(red: Redactor<R>, done: Bytes, chunks: seq<Bytes>)
    ensures
      var all, o := done + Joined(chunks), Outcomes(red, done, chunks);
      || (ErrorOf(red, all).None? && o == EndOf(red, all))
      || (chunks == [] && o == EndOf(red, all))
      || (exists n: nat :: |done| <= n <= |all| && ErrorOf(red, all[..n]) == Some(o))
    decreases |chunks|
  {
    hide ErrorOf, EndOf;
    var all := done + Joined(chunks);
    if chunks == [] {
      assert all == done;
    } else {
      var next := done + chunks[0];
      assert all == next + Joined(chunks[1..]);
      assert all[..|next|] == next;
      if ErrorOf(red, next).None? {
        OutcomeOfPrefix(red, next, chunks[1..]);
        if chunks[1..] == [] {
          assert all == next;
        }
      }
    }
  }

  /** Accepting, and the output, depend on the bytes alone. */
  lemma AcceptedAlike<R>(red: Redactor<R>, chunks: seq<Bytes>, t: Text)
    ensures StreamOf(red, chunks) == Done(t) <==> RedactBytes(red, Joined(chunks)) == Some(t)
  {
    hide ErrorOf, EndOf, Outcomes, RedactBytes;
    var all := Joined(chunks);
    assert [] + all == all;
    OutcomeOfPrefix(red, [], chunks);
    EndIsWhole(red, all);
    if ErrorOf(red, all).None? {
      NoErrorBefore(red, [], chunks);
    } else {
      NothingIsNoError(red);
      SomeError(red, [], chunks);
    }
  }

  /** Without an error the end is the verdict on the whole file; with one, the whole file is rejected. */
  lemma EndIsWhole<R>(red: Redactor<R>, all: Bytes)
    ensures ErrorOf(red, all).None? ==> forall t :: EndOf(red, all) == Done(t) <==> RedactBytes(red, all) == Some(t)
    ensures ErrorOf(red, all).Some? ==> RedactBytes(red, all) == None && !ErrorOf(red, all).value.Done?
  {
    hide TakeLines, DecodeFrom, FinishText, RedactText;
    var text := DecodeFrom(Between, all);
    if text.Some? {
      TakeThenFinish(red, Begun(red, text.value.text));
      var whole := RedactText(red, red.start, text.value.text);
      assert whole.Some? ==> [] + whole.value == whole.value;
    }
  }

  lemma {:induction false} NoErrorBefore<R>(red: Redactor<R>, done: Bytes, chunks: seq<Bytes>)
    requires ErrorOf(red, done + Joined(chunks)).None?
    ensures Outcomes(red, done, chunks) == EndOf(red, done + Joined(chunks))
    decreases |chunks|
  {
    hide ErrorOf, EndOf;
    if chunks == [] {
      assert done + Joined(chunks) == done;
    } else {
      var next := done + chunks[0];
      assert done + Joined(chunks) == next + Joined(chunks[1..]);
      if ErrorOf(red, next).Some? {
        ErrorsStay(red, next, Joined(chunks[1..]));
      }
      NoErrorBefore(red, next, chunks[1..]);
    }
  }

  lemma {:induction false} SomeError<R>(red: Redactor<R>, done: Bytes, chunks: seq<Bytes>)
    requires ErrorOf(red, done + Joined(chunks)).Some? && ErrorOf(red, done).None?
    ensures !Outcomes(red, done, chunks).Done?
    decreases |chunks|
  {
    hide EndOf, ErrorOf;
    assert chunks == [] ==> done + Joined(chunks) == done;
    if chunks != [] {
      var next := done + chunks[0];
      assert done + Joined(chunks) == next + Joined(chunks[1..]);
      ErrorKinds(red, next);
      if ErrorOf(red, next).None? {
        SomeError(red, next, chunks[1..]);
      }
    }
  }

  /** Does some prefix of the bytes raise this error? */
  ghost predicate Raises<R>(red: Redactor<R>, all: Bytes, o: Outcome) {
    exists n: nat :: n <= |all| && ErrorOf(red, all[..n]) == Some(o)
  }

  ghost predicate Divides(chunks: seq<Bytes>, all: Bytes) {
    Joined(chunks) == all && forall k :: 0 <= k < |chunks| ==> chunks[k] != []
  }

  /** Any prefix that raises an error can be the one that is met first. */
  lemma CanBeMet<R>(red: Redactor<R>, all: Bytes, n: nat) returns (chunks: seq<Bytes>)
    requires n <= |all| && ErrorOf(red, all[..n]).Some?
    ensures Divides(chunks, all) && StreamOf(red, chunks) == ErrorOf(red, all[..n]).value
  {
    hide ErrorOf, EndOf;
    NothingIsNoError(red);
    var first, rest := all[..n], all[n..];
    assert first + rest == all && n > 0;
    assert [] + first == first;
    if rest == [] {
      chunks := [first];
      assert chunks[1..] == [];
      assert Joined(chunks) == first + [];
    } else {
      chunks := [first, rest];
      assert chunks[1..] == [rest] && [rest][1..] == [];
      assert Joined([rest]) == rest + [];
      assert Joined(chunks) == first + rest;
    }
  }

  lemma NothingIsNoError<R>(red: Redactor<R>)
    ensures ErrorOf(red, []).None?
  {}

  /** Which error is raised depends on the division exactly when one prefix of the bytes raises a
      decoding error and another a different one. Everything else is a function of the bytes. */
  lemma DivisionMattersIff<R>(red: Redactor<R>, all: Bytes)
    ensures (exists a, b :: Divides(a, all) && Divides(b, all) && StreamOf(red, a) != StreamOf(red, b))
            <==> Raises(red, all, NotText) && Raises(red, all, Aborted)
  {
    hide ErrorOf, EndOf, StreamOf, Divides;
    if Raises(red, all, NotText) && Raises(red, all, Aborted) {
      var n: nat :| n <= |all| && ErrorOf(red, all[..n]) == Some(NotText);
      var k: nat :| k <= |all| && ErrorOf(red, all[..k]) == Some(Aborted);
      var a := CanBeMet(red, all, n);
      var b := CanBeMet(red, all, k);
      assert Divides(a, all) && Divides(b, all) && StreamOf(red, a) != StreamOf(red, b);
    } else {
      forall a, b | Divides(a, all) && Divides(b, all) ensures StreamOf(red, a) == StreamOf(red, b) {
        OneKind(red, all, a);
        OneKind(red, all, b);
        KindsAgree(red, all);
      }
    }
  }

  /** The outcome of a division: the end, or an error some prefix raises. */
  lemma OneKind<R>(red: Redactor<R>, all: Bytes, chunks: seq<Bytes>)
    requires Divides(chunks, all)
    ensures if ErrorOf(red, all).None? then StreamOf(red, chunks) == EndOf(red, all)
            else (StreamOf(red, chunks) == NotText || StreamOf(red, chunks) == Aborted) && Raises(red, all, StreamOf(red, chunks))
  {
    hide ErrorOf, EndOf;
    assert [] + all == all;
    OutcomeOfPrefix(red, [], chunks);
    if ErrorOf(red, all).None? {
      NoErrorBefore(red, [], chunks);
    } else {
      NothingIsNoError(red);
      assert chunks != [];
      var n: nat :| n <= |all| && ErrorOf(red, all[..n]) == Some(StreamOf(red, chunks));
      ErrorKinds(red, all[..n]);
    }
  }

  lemma ErrorKinds<R>(red: Redactor<R>, bytes: Bytes)
    ensures ErrorOf(red, bytes).Some? ==> ErrorOf(red, bytes).value == NotText || ErrorOf(red, bytes).value == Aborted
  {
    hide TakeLines, DecodeFrom;
  }

  lemma KindsAgree<R>(red: Redactor<R>, all: Bytes)
    ensures !(Raises(red, all, NotText) && Raises(red, all, Aborted)) ==>
              forall x, y :: Raises(red, all, x) && Raises(red, all, y) ==> x == y
  {
    hide ErrorOf;
    forall x, y | Raises(red, all, x) && Raises(red, all, y) && !(Raises(red, all, NotText) && Raises(red, all, Aborted)) ensures x == y {
      var n: nat :| n <= |all| && ErrorOf(red, all[..n]) == Some(x);
      var k: nat :| k <= |all| && ErrorOf(red, all[..k]) == Some(y);
      ErrorKinds(red, all[..n]);
      ErrorKinds(red, all[..k]);
    }
  }

  /** For bytes that are UTF-8 the whole outcome is independent of the division. */
  lemma ValidTextIsNeverBlocked<R>(red: Redactor<R>, all: Bytes)
    requires Decode(all).Some?
    ensures !Raises(red, all, NotText)
  {
    hide DecodeFrom, TakeLines;
    forall n: nat | n <= |all| ensures ErrorOf(red, all[..n]) != Some(NotText) {
      assert all == all[..n] + all[n..];
      DecodeSplit(Between, all[..n], all[n..]);
    }
  }

  const STREAM_CHUNK_BYTES: nat := 64 * 1024

  function Letters(n: nat): Bytes {
    seq(n, _ => 97)
  }

  function LetterText(n: nat): Text {
    seq(n, _ => 97)
  }

  lemma {:induction false} DecodeLetters(n: nat)
    ensures DecodeFrom(Between, Letters(n)) == Some(Decoded(Between, LetterText(n)))
    decreases n
  {
    hide DecodeFrom;
    if n == 0 {
      DecodeNothing();
      assert Letters(0) == [] && LetterText(0) == [];
    } else {
      DecodeLetters(n - 1);
      assert Letters(n) == [97] + Letters(n - 1);
      FeedFront(Between, 97, Letters(n - 1));
      assert [97] + LetterText(n - 1) == LetterText(n);
    }
  }

  /** A line of letters raises no error up to the limit, and ends the call beyond it. */
  lemma LettersBegun<R>(red: Redactor<R>, n: nat)
    requires n <= MAX_REDACTION_FILE_BYTES
    ensures ErrorOf(red, Letters(n)) == if n <= MAX_LOGICAL_LINE_CHARACTERS then None else Some(Aborted)
  {
    hide DecodeFrom;
    DecodeLetters(n);
    assert FindNewline(LetterText(n)) == n;
  }

  /** Full reads of letters. */
  function FullReads(k: nat): seq<Bytes> {
    if k == 0 then [] else [Letters(STREAM_CHUNK_BYTES)] + FullReads(k - 1)
  }

  lemma {:induction false} AfterFullReads<R>(red: Redactor<R>, m: nat, k: nat, tail: seq<Bytes>)
    requires m + k * STREAM_CHUNK_BYTES <= MAX_LOGICAL_LINE_CHARACTERS
    ensures Outcomes(red, Letters(m), FullReads(k) + tail) == Outcomes(red, Letters(m + k * STREAM_CHUNK_BYTES), tail)
    decreases k
  {
    hide ErrorOf, EndOf;
    if k == 0 {
      assert FullReads(0) + tail == tail;
    } else {
      var chunks := FullReads(k) + tail;
      assert chunks[0] == Letters(STREAM_CHUNK_BYTES) && chunks[1..] == FullReads(k - 1) + tail;
      assert Letters(m) + Letters(STREAM_CHUNK_BYTES) == Letters(m + STREAM_CHUNK_BYTES);
      LettersBegun(red, m + STREAM_CHUNK_BYTES);
      AfterFullReads(red, m + STREAM_CHUNK_BYTES, k - 1, tail);
    }
  }

  /** The byte 255 after a letter is no text, whatever came before. */
  lemma BadByte<R>(red: Redactor<R>, n: nat)
    requires n + 2 <= MAX_REDACTION_FILE_BYTES
    ensures ErrorOf(red, Letters(n) + [97, 255]) == Some(NotText)
  {
    hide TakeLines;
    DecodeSplit(Between, Letters(n), [97, 255]);
    DecodeLetters(n);
    assert [97, 255] == [97] + [255];
    FeedFront(Between, 97, [255]);
    assert [255] == [255] + [];
    FeedFront(Between, 255, []);
  }

  /** It does happen, for every redactor and in reads of at most the code's size: a line of letters that
      is one too long, then a byte that is not UTF-8. If the last two bytes are read together the
      artifact is blocked; if they are read apart the call is aborted. */
  lemma DivisionCanMatter<R>(red: Redactor<R>)
    ensures
      var full := FullReads(MAX_LOGICAL_LINE_CHARACTERS / STREAM_CHUNK_BYTES);
      && Joined(full + [[97, 255]]) == Joined(full + [[97], [255]]) == Letters(MAX_LOGICAL_LINE_CHARACTERS + 1) + [255]
      && (forall c :: c in full ==> |c| == STREAM_CHUNK_BYTES)
      && StreamOf(red, full + [[97, 255]]) == NotText
      && StreamOf(red, full + [[97], [255]]) == Aborted
  {
    hide ErrorOf, EndOf, FullReads;
    var n := MAX_LOGICAL_LINE_CHARACTERS / STREAM_CHUNK_BYTES;
    var together, apart: seq<Bytes> := [[97, 255]], [[97], [255]];
    assert Letters(0) == [];
    AfterFullReads(red, 0, n, together);
    AfterFullReads(red, 0, n, apart);
    BadByte(red, MAX_LOGICAL_LINE_CHARACTERS);
    assert Letters(MAX_LOGICAL_LINE_CHARACTERS) + [97] == Letters(MAX_LOGICAL_LINE_CHARACTERS + 1);
    LettersBegun(red, MAX_LOGICAL_LINE_CHARACTERS + 1);
    AllReads(n, together);
    AllReads(n, apart);
    ReadLengthIs(n);
    TailsJoin();
    assert Letters(MAX_LOGICAL_LINE_CHARACTERS) + [97, 255] == Letters(MAX_LOGICAL_LINE_CHARACTERS + 1) + [255];
  }

  lemma TailsJoin()
    ensures Joined([[97, 255]]) == Joined([[97], [255]]) == [97, 255]
  {
    var together, apart: seq<Bytes> := [[97, 255]], [[97], [255]];
    assert together[1..] == [] && apart[1..] == [[255]] && apart[1..][1..] == [];
    assert Joined(apart[1..]) == [255] + [];
  }

  lemma NoLetters(tail: Bytes)
    ensures Letters(0) + tail == tail
  {}

  lemma OneRead()
    ensures |Letters(STREAM_CHUNK_BYTES)| == STREAM_CHUNK_BYTES
  {}

  lemma LettersPlus(m: nat, n: nat, tail: Bytes)
    ensures Letters(m) + (Letters(n) + tail) == Letters(m + n) + tail
  {}

  /** How much full reads bring. */
  function ReadLength(k: nat): nat {
    if k == 0 then 0 else STREAM_CHUNK_BYTES + ReadLength(k - 1)
  }

  lemma {:induction false} ReadLengthIs(k: nat)
    ensures ReadLength(k) == k * STREAM_CHUNK_BYTES
    decreases k
  {
    if k > 0 {
      ReadLengthIs(k - 1);
    }
  }

  lemma {:induction false} AllReads(k: nat, tail: seq<Bytes>)
    ensures Joined(FullReads(k) + tail) == Letters(ReadLength(k)) + Joined(tail)
    ensures forall c :: c in FullReads(k) ==> |c| == STREAM_CHUNK_BYTES
    decreases k
  {
    hide STREAM_CHUNK_BYTES, Letters;
    if k == 0 {
      assert FullReads(0) + tail == tail;
      NoLetters(Joined(tail));
    } else {
      OneRead();
      var chunks := FullReads(k) + tail;
      assert chunks[0] == Letters(STREAM_CHUNK_BYTES) && chunks[1..] == FullReads(k - 1) + tail;
      AllReads(k - 1, tail);
      LettersPlus(STREAM_CHUNK_BYTES, ReadLength(k - 1), Joined(tail));
    }
  }

  /** It is rejected whenever the file or any logical line is too long. */
  lemma LimitsReject<R>(red: Redactor<R>, bytes: Bytes, from: nat, until: nat)
    requires |bytes| > MAX_REDACTION_FILE_BYTES
             || (Decode(bytes).Some? && from <= until <= |Decode(bytes).value| && LongLine(Decode(bytes).value, from, until))
    ensures RedactBytes(red, bytes) == None
  {
    hide RedactText, Decode;
    if |bytes| <= MAX_REDACTION_FILE_BYTES {
      LongLineRejects(red, red.start, Decode(bytes).value, from, until);
    }
  }

  /** A stretch of one line longer than the limit. */
  predicate LongLine(t: Text, from: nat, until: nat)
    requires from <= until <= |t|
  {
    until - from > MAX_LOGICAL_LINE_CHARACTERS && forall k :: from <= k < until ==> t[k] != NEWLINE
  }

  lemma {:induction false} LongLineRejects<R>(red: Redactor<R>, s: R, t: Text, from: nat, until: nat)
    requires from <= until <= |t| && LongLine(t, from, until)
    ensures RedactText(red, s, t) == None
    decreases |t|
  {
    var k := FindNewline(t);
    if k < |t| && k <= MAX_LOGICAL_LINE_CHARACTERS {
      if k < from {
        var step := red.line(s, t[..k + 1]);
        if step.Some? {
          LongLineRejects(red, step.value.0, t[k + 1..], from - k - 1, until - k - 1);
        }
      }
    }
  }
}
