/** Which files the streaming redaction (src/sddgov/redaction.py) accepts, and what it writes, said of the
    file's lines. */
module LogicalLines {
  import opened Common
  import opened TextStream

  /** Lines of a text: each ends at its one newline, the last perhaps at the end of the text. */
  predicate AreLines(lines: seq<Text>) {
    forall k :: 0 <= k < |lines| ==>
      && lines[k] != [] && (forall j :: 0 <= j < |lines[k]| - 1 ==> lines[k][j] != 10)
      && (k < |lines| - 1 ==> lines[k][|lines[k]| - 1] == 10)
  }

  function Flat(lines: seq<Text>): Text {
    if lines == [] then [] else lines[0] + Flat(lines[1..])
  }

  /** Its newline aside. */
  function LengthOf(line: Text): nat {
    if line != [] && line[|line| - 1] == 10 then |line| - 1 else |line|
  }

  predicate AllShort(lines: seq<Text>) {
    forall k :: 0 <= k < |lines| ==> LengthOf(lines[k]) <= 1024 * 1024
  }

  /** What the redactor makes of the lines, one after the other, and of the end. */
  function Folded<R>(red: Redactor<R>, s: R, lines: seq<Text>): Option<Text> {
    if lines == [] then red.finish(s) else
      match red.line(s, lines[0])
      case None => None
      case Some(step) =>
        match Folded(red, step.0, lines[1..])
        case None => None
        case Some(rest) => Some(step.1 + rest)
  }

  lemma {:induction false} LinesOf(t: Text) returns (lines: seq<Text>)
    ensures AreLines(lines) && Flat(lines) == t
    decreases |t|
  {
    var k := FindNewline(t);
    if t == [] {
      lines := [];
    } else if k == |t| {
      lines := [t];
    } else {
      var rest := LinesOf(t[k + 1..]);
      lines := [t[..k + 1]] + rest;
      assert lines[1..] == rest;
      assert forall j :: 1 <= j < |lines| ==> lines[j] == rest[j - 1];
      assert t == t[..k + 1] + t[k + 1..];
    }
  }

  lemma FirstNewline(line: Text, rest: Text)
    requires line != [] && forall j :: 0 <= j < |line| - 1 ==> line[j] != 10
    ensures line[|line| - 1] == 10 ==> FindNewline(line + rest) == |line| - 1
    ensures line[|line| - 1] != 10 ==> FindNewline(line) == |line|
  {
    assert forall j :: 0 <= j < |line| ==> (line + rest)[j] == line[j];
  }

  lemma LaterLines(lines: seq<Text>)
    requires lines != [] && AreLines(lines)
    ensures AreLines(lines[1..]) && (AllShort(lines) <==> LengthOf(lines[0]) <= 1024 * 1024 && AllShort(lines[1..]))
    ensures lines[0][|lines[0]| - 1] != 10 ==> lines[1..] == []
  {
    hide LengthOf;
    assert forall k :: 0 <= k < |lines| - 1 ==> lines[1..][k] == lines[k + 1];
    if AllShort(lines[1..]) && LengthOf(lines[0]) <= 1024 * 1024 {
      forall k | 0 <= k < |lines| ensures LengthOf(lines[k]) <= 1024 * 1024 {
        assert k > 0 ==> lines[1..][k - 1] == lines[k];
      }
    }
  }

  lemma {:induction false} LineByLine<R>(red: Redactor<R>, s: R, lines: seq<Text>)
    requires AreLines(lines)
    ensures RedactText(red, s, Flat(lines)) == if AllShort(lines) then Folded(red, s, lines) else None
    decreases |lines|
  {
    hide AreLines, AllShort;
    if lines == [] {
      assert AllShort([]) by { NoLines(); }
    } else {
      var line, rest := lines[0], Flat(lines[1..]);
      LaterLines(lines);
      assert line != [] && forall j :: 0 <= j < |line| - 1 ==> line[j] != 10 by { OneNewline(lines); }
      FirstNewline(line, rest);
      var step := red.line(s, line);
      if step.Some? {
        LineByLine(red, step.value.0, lines[1..]);
      }
      if line[|line| - 1] == 10 {
        assert (line + rest)[..|line|] == line && (line + rest)[|line|..] == rest;
      } else {
        assert line + rest == line;
      }
    }
  }

  lemma NoLines()
    ensures AllShort([])
  {}

  lemma OneNewline(lines: seq<Text>)
    requires lines != [] && AreLines(lines)
    ensures lines[0] != [] && forall j :: 0 <= j < |lines[0]| - 1 ==> lines[0][j] != 10
  {}

  /** A file is accepted, with this output, exactly if it is UTF-8 of no more than ten mebibytes, none of its
      lines is longer than a mebi of characters, and the redactor makes this of its lines in order. */
  lemma AcceptedIff<R>(red: Redactor<R>, bytes: Bytes, out: Text)
    ensures RedactBytes(red, bytes) == Some(out) <==>
            exists lines ::
              && AreLines(lines) && Scalars(Flat(lines)) && bytes == Encode(Flat(lines)) && |bytes| <= 10 * 1024 * 1024
              && AllShort(lines) && Folded(red, red.start, lines) == Some(out)
  {
    hide Decode, Encode, Scalars, RedactText, AreLines, AllShort, Folded, Flat;
    if RedactBytes(red, bytes) == Some(out) {
      var t := Decode(bytes).value;
      DecodeExact(bytes, t);
      var lines := LinesOf(t);
      LineByLine(red, red.start, lines);
    }
    if lines :| && AreLines(lines) && Scalars(Flat(lines)) && bytes == Encode(Flat(lines)) && |bytes| <= 10 * 1024 * 1024
                && AllShort(lines) && Folded(red, red.start, lines) == Some(out)
    {
      DecodeExact(bytes, Flat(lines));
      LineByLine(red, red.start, lines);
    }
  }
}
