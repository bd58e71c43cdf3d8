/** How records may be framed: any line ends, lost trailing blanks and empty lines in
    between make no difference to what is read. */
module HotLines {
  import opened HotRecord
  import opened HotFile
  import opened HotText

  /** A line as it may come: what it says and the carriage returns before its line feed. */
  datatype Line = Line(says: string, carriage: nat)

  predicate Plain(l: Line) {
    '\n' !in l.says && (l.says != "" ==> l.says[|l.says| - 1] != '\r')
  }

  function Written(l: Line): string {
    l.says + Repeated('\r', l.carriage)
  }

  /** The lines one after the other, the last one ended or not. */
  function Framed(lines: seq<Line>, ended: bool): string {
    if lines == [] then ""
    else if |lines| == 1 && !ended then Written(lines[0])
    else Written(lines[0]) + "\n" + Framed(lines[1..], ended)
  }

  /** The records they make: those that say something, filled with blanks to the right. */
  function Filled(lines: seq<Line>): (r: seq<Record>)
    ensures AllRecords(r)
  {
    if lines == [] then []
    else
      var says := lines[0].says;
      (if says == "" then []
       else [if |says| < 136 then says + Repeated(' ', 136 - |says|) else says]) + Filled(lines[1..])
  }

  lemma {:induction false} LineEndIs(line: string, rest: string)
    requires '\n' !in line
    ensures LineEnd(line + "\n" + rest) == |line| && LineEnd(line) == |line|
    decreases |line|
  {
    if line != "" {
      assert (line + "\n" + rest)[1..] == line[1..] + "\n" + rest;
      LineEndIs(line[1..], rest);
    }
  }

  lemma NoLineFeed(l: Line)
    requires Plain(l)
    ensures '\n' !in Written(l)
  {
  }

  lemma {:induction false} ReturnsGo(says: string, n: nat)
    requires says != "" ==> says[|says| - 1] != '\r'
    ensures WithoutReturns(says + Repeated('\r', n)) == says
    decreases n
  {
    var line := says + Repeated('\r', n);
    if n == 0 {
      assert line == says;
    } else {
      assert line[..|line| - 1] == says + Repeated('\r', n - 1);
      ReturnsGo(says, n - 1);
    }
  }

  lemma {:induction false} RecordsConcat(xs: seq<string>, ys: seq<string>)
    ensures RecordsOf(xs + ys) == RecordsOf(xs) + RecordsOf(ys)
    decreases |ys|
  {
    hide WithoutReturns;
    if ys == [] {
      assert xs + ys == xs;
    } else {
      assert (xs + ys)[..|xs + ys| - 1] == xs + ys[..|ys| - 1];
      RecordsConcat(xs, ys[..|ys| - 1]);
    }
  }

  lemma OneRecord(l: Line)
    requires Plain(l)
    ensures RecordsOf([Written(l)])
         == if l.says == "" then [] else [if |l.says| < 136 then l.says + Repeated(' ', 136 - |l.says|) else l.says]
  {
    hide WithoutReturns;
    ReturnsGo(l.says, l.carriage);
    assert [Written(l)][..0] == [] && RecordsOf([]) == [];
    if |l.says| >= 136 {
      assert l.says + Blanks(RECORD_LEN - |l.says|) == l.says;
    }
  }

  lemma LinesNext(line: string, rest: string)
    requires '\n' !in line
    ensures Lines(line + "\n" + rest) == [line] + Lines(rest)
  {
    LineEndIs(line, rest);
    var text := line + "\n" + rest;
    assert text[..|line|] == line && text[|line| + 1..] == rest;
  }

  lemma LastLine(line: string)
    requires '\n' !in line
    ensures RecordsOf(Lines(line)) == RecordsOf([line])
  {
    LineEndIs(line, "");
    if line == "" {
      assert [line][..0] == [] && RecordsOf([]) == [] && RecordsOf([""]) == [];
    }
  }

  /** Any framing of lines is read as the records they make; and every text is one. */
  lemma {:induction false} FramingDoesNotMatter(lines: seq<Line>, ended: bool)
    requires forall i | 0 <= i < |lines| :: Plain(lines[i])
    ensures RecordsOf(Lines(Framed(lines, ended))) == Filled(lines)
    ensures ParsedText(Framed(lines, ended)) == Parsed(Filled(lines))
    decreases |lines|
  {
    hide Lines, RecordsOf, Written, Plain, Parsed;
    if lines == [] {
      NoLines();
    } else {
      NoLineFeed(lines[0]);
      OneRecord(lines[0]);
      if |lines| == 1 && !ended {
        LastLine(Written(lines[0]));
        assert Filled(lines[1..]) == [];
      } else {
        FramingDoesNotMatter(lines[1..], ended);
        LinesNext(Written(lines[0]), Framed(lines[1..], ended));
        RecordsConcat([Written(lines[0])], Lines(Framed(lines[1..], ended)));
      }
    }
  }

  lemma NoLines()
    ensures RecordsOf(Lines("")) == []
  {
  }

  /** Every text is a framing of some lines. */
  lemma {:induction false} EveryTextIsFramed(text: string) returns (lines: seq<Line>, ended: bool)
    ensures (forall i | 0 <= i < |lines| :: Plain(lines[i])) && Framed(lines, ended) == text
    decreases |text|
  {
    if text == "" {
      lines, ended := [], true;
    } else {
      var i := LineEnd(text);
      var l := LineOf(text[..i]);
      if i == |text| {
        lines, ended := [l], false;
      } else {
        var rest, e := EveryTextIsFramed(text[i + 1..]);
        lines, ended := [l] + rest, e || rest == [];
        assert lines[1..] == rest;
        assert text == text[..i] + "\n" + text[i + 1..];
      }
    }
  }

  lemma {:induction false} LineOf(line: string) returns (l: Line)
    requires '\n' !in line
    ensures Plain(l) && Written(l) == line
    decreases |line|
  {
    if line != "" && line[|line| - 1] == '\r' {
      var before := LineOf(line[..|line| - 1]);
      l := before.(carriage := before.carriage + 1);
      assert Written(l) == Written(before) + "\r";
    } else {
      l := Line(line, 0);
      assert Written(l) == line;
    }
  }
}
