/** `parseOuput` (lib/ms-wmic.js:117-126): the prior-error short-circuit and
    the line-ending repair that runs before CSV decoding.

    The CSV decoder is a separate library; here it is the parameter
    `decode`, given the repaired text.
 */
module OutputParser {
  import opened Outcomes
  import opened Text
  import opened Executor

  /** A decoded CSV record: column header to field text. */
  type Row = seq<(string, string)>

  /** What the CSV decoder reports. */
  datatype Decoded = Decoded(err: Option<Error>, rows: seq<Row>)

  /** The `(err, rows, stdOut)` triple `parseOuput` hands on. */
  datatype ParseReply = ParseReply(err: Option<Error>, rows: seq<Row>, raw: string)

  /** No carriage return is directly followed by another. */
  predicate NoDoubleCR(s: string)
  {
    forall i :: 0 <= i < |s| - 1 ==> !(s[i] == '\r' && s[i + 1] == '\r')
  }

  /** `s.replace(/\r\r/g, '\n')`: scanning left to right, each pair of
      carriage returns that does not overlap an earlier one becomes a line
      feed. */
  function NormalizeLineEnds(s: string): (r: string)
    ensures |r| <= |s|
    ensures |s| > 0 ==> |r| > 0
    ensures |r| > 0 && r[0] == '\r' ==> s[0] == '\r' && (|s| == 1 || s[1] != '\r')
    ensures NoDoubleCR(r)
    decreases |s|
  {
    if |s| >= 2 && s[0] == '\r' && s[1] == '\r' then "\n" + NormalizeLineEnds(s[2..])
    else if |s| == 0 then ""
    else
      var rest := NormalizeLineEnds(s[1..]);
      assert |rest| > 0 && rest[0] == '\r' ==> s[1] == '\r';
      [s[0]] + rest
  }

  /** Every line feed written as two carriage returns. */
  function Expand(s: string): string
  {
    if |s| == 0 then ""
    else (if s[0] == '\n' then "\r\r" else [s[0]]) + Expand(s[1..])
  }

  lemma {:induction false} ExpandAppend(a: string, b: string)
    ensures Expand(a + b) == Expand(a) + Expand(b)
  {
    if |a| > 0 {
      assert (a + b)[1..] == a[1..] + b;
      ExpandAppend(a[1..], b);
    } else {
      assert a + b == b;
    }
  }

  /** The repair only turns pairs of carriage returns into line feeds:
      writing every line feed back as two carriage returns gives the same
      text for the repaired and the original output. */
  lemma {:induction false} NormalizeThenExpand(s: string)
    ensures Expand(NormalizeLineEnds(s)) == Expand(s)
    decreases |s|
  {
    if |s| >= 2 && s[0] == '\r' && s[1] == '\r' {
      NormalizeThenExpand(s[2..]);
      ExpandAfterPair(s);
    } else if |s| > 0 {
      NormalizeThenExpand(s[1..]);
      ExpandAfterFirst(s);
    }
  }

  /** The step of NormalizeThenExpand at a pair of carriage returns. */
  lemma {:induction false} ExpandAfterPair(s: string)
    requires |s| >= 2 && s[0] == '\r' && s[1] == '\r'
    requires Expand(NormalizeLineEnds(s[2..])) == Expand(s[2..])
    ensures Expand(NormalizeLineEnds(s)) == Expand(s)
  {
    assert NormalizeLineEnds(s) == "\n" + NormalizeLineEnds(s[2..]);
    ExpandAppend("\n", NormalizeLineEnds(s[2..]));
    assert s == "\r\r" + s[2..];
    ExpandAppend("\r\r", s[2..]);
    assert Expand("\r\r") == "\r" + Expand("\r");
  }

  /** The step of NormalizeThenExpand at any other character. */
  lemma {:induction false} ExpandAfterFirst(s: string)
    requires |s| > 0 && !(|s| >= 2 && s[0] == '\r' && s[1] == '\r')
    requires Expand(NormalizeLineEnds(s[1..])) == Expand(s[1..])
    ensures Expand(NormalizeLineEnds(s)) == Expand(s)
  {
    assert NormalizeLineEnds(s) == [s[0]] + NormalizeLineEnds(s[1..]);
    ExpandAppend([s[0]], NormalizeLineEnds(s[1..]));
    assert s == [s[0]] + s[1..];
    ExpandAppend([s[0]], s[1..]);
  }

  /** Text without a pair of carriage returns is left as it is. */
  lemma {:induction false} NormalizeLeavesCleanText(s: string)
    requires NoDoubleCR(s)
    ensures NormalizeLineEnds(s) == s
    decreases |s|
  {
    if |s| > 0 {
      assert !(|s| >= 2 && s[0] == '\r' && s[1] == '\r');
      assert NoDoubleCR(s[1..]) by {
        forall i | 0 <= i < |s[1..]| - 1 ensures !(s[1..][i] == '\r' && s[1..][i + 1] == '\r') {
          assert s[1..][i] == s[i + 1] && s[1..][i + 1] == s[i + 2];
        }
      }
      NormalizeLeavesCleanText(s[1..]);
    }
  }

  /** `parseOuput(err, stdOut, cb)`: a prior error is passed on with no rows;
      otherwise the repaired text goes to the decoder. The raw output is
      always handed on unchanged. */
  function ParseOutput(prior: Option<Error>, stdout: string, decode: string -> Decoded): (r: ParseReply)
    ensures r.raw == stdout
    ensures prior.Some? ==> r.err == prior && r.rows == []
    ensures prior.None? ==>
      r.err == decode(NormalizeLineEnds(stdout)).err && r.rows == decode(NormalizeLineEnds(stdout)).rows
    ensures prior.None? ==> exists text ::
      (NoDoubleCR(text) && Expand(text) == Expand(stdout) && r.err == decode(text).err && r.rows == decode(text).rows)
  {
    if prior.Some? then ParseReply(prior, [], stdout)
    else
      var text := NormalizeLineEnds(stdout);
      NormalizeThenExpand(stdout);
      var d := decode(text);
      ParseReply(d.err, d.rows, stdout)
  }

  // ---------------------------------------------------------------------
  // The `close` handler and the repair together.

  /** Every line followed by `end`. */
  function Suffixed(lines: seq<string>, end: string): (r: seq<string>)
    ensures |r| == |lines|
    ensures forall i :: 0 <= i < |lines| ==> r[i] == lines[i] + end
  {
    seq(|lines|, i requires 0 <= i < |lines| => lines[i] + end)
  }

  /** The repair turns the `\r\r` ending of every line into a line feed when
      the lines hold no carriage return, and goes on with what follows. */
  lemma {:induction false} RepairLinesThen(lines: seq<string>, rest: string)
    requires forall i :: 0 <= i < |lines| ==> '\r' !in lines[i]
    ensures NormalizeLineEnds(Terminated(lines, "\r\r") + rest) == Terminated(lines, "\n") + NormalizeLineEnds(rest)
  {
    if |lines| > 0 {
      var tail := lines[1..];
      assert forall i :: 0 <= i < |tail| ==> '\r' !in tail[i] by {
        forall i | 0 <= i < |tail| ensures '\r' !in tail[i] {
          assert tail[i] == lines[i + 1];
        }
      }
      RepairLinesThen(tail, rest);
      var t := Terminated(tail, "\r\r");
      LineWithoutCR(lines[0]);
      RepairLine(lines[0], t + rest);
      Associate4(lines[0], "\r\r", t, rest);
      assert Terminated(lines, "\r\r") == lines[0] + "\r\r" + t;
      assert NormalizeLineEnds(Terminated(lines, "\r\r") + rest) == lines[0] + ("\n" + NormalizeLineEnds(t + rest));
      var u := Terminated(tail, "\n");
      Associate4(lines[0], "\n", u, NormalizeLineEnds(rest));
      assert Terminated(lines, "\n") == lines[0] + "\n" + u;
    } else {
      assert Terminated(lines, "\r\r") + rest == rest;
      assert Terminated(lines, "\n") + NormalizeLineEnds(rest) == NormalizeLineEnds(rest);
    }
  }

  /** The replacement scans left to right: text with no pair of carriage
      returns and not ending in one is kept up to the first pair, which
      becomes a line feed, and the scan goes on after it. With
      `NormalizeLeavesCleanText` this fixes the result on every text. */
  lemma {:induction false} RepairLine(line: string, rest: string)
    requires NoDoubleCR(line)
    requires |line| == 0 || line[|line| - 1] != '\r'
    ensures NormalizeLineEnds(line + ("\r\r" + rest)) == line + ("\n" + NormalizeLineEnds(rest))
    decreases |line|
  {
    var s := line + ("\r\r" + rest);
    if |line| == 0 {
      assert s == "\r\r" + rest;
      assert s[2..] == rest;
    } else {
      assert s[0] == line[0] && s[1] == (if |line| > 1 then line[1] else '\r');
      assert s[1..] == line[1..] + ("\r\r" + rest);
      assert NoDoubleCR(line[1..]) by {
        forall i | 0 <= i < |line[1..]| - 1 ensures !(line[1..][i] == '\r' && line[1..][i + 1] == '\r') {
          assert line[1..][i] == line[i + 1] && line[1..][i + 1] == line[i + 2];
        }
      }
      RepairLine(line[1..], rest);
      assert [line[0]] + line[1..] == line;
    }
  }

  /** Three carriage returns after a line: the first two become the line
      feed and the third stays, as a left-to-right scan gives. */
  lemma {:induction false} TripleCR(line: string)
    requires NoDoubleCR(line)
    requires |line| == 0 || line[|line| - 1] != '\r'
    ensures NormalizeLineEnds(line + "\r\r\r") == line + "\n\r"
  {
    var cr := "\r";
    RepairLine(line, cr);
    LoneCR(cr);
    assert "\r\r" + cr == "\r\r\r";
    assert "\n" + cr == "\n\r";
  }

  lemma LoneCR(cr: string)
    requires cr == "\r"
    ensures NormalizeLineEnds(cr) == cr
  {
  }

  /** Writing every line followed by `end` terminates the lines with `end`. */
  lemma {:induction false} ConcatSuffixed(lines: seq<string>, end: string)
    ensures Concat(Suffixed(lines, end)) == Terminated(lines, end)
  {
    if |lines| > 0 {
      assert Suffixed(lines, end)[1..] == Suffixed(lines[1..], end);
      ConcatSuffixed(lines[1..], end);
    }
  }

  /** The banner lines go, the data lines and the empty last piece stay. */
  lemma KeepDataLines(banners: seq<string>, data: seq<string>)
    requires forall i :: 0 <= i < |banners| ==> IsBanner(banners[i])
    requires forall i :: 0 <= i < |data| ==> !IsBanner(data[i])
    ensures KeepLines(banners + data + [""]) == data + [""]
  {
    KeepLinesAppend(banners + data, [""]);
    KeepLinesAppend(banners, data);
    DropBanners(banners);
    KeepAllLines(data);
    assert !IsBanner("");
    assert KeepLines([""]) == [""];
  }

  /** The tool's output: banner lines, then data lines each ended by
      `\r\r\n`. */
  function ToolOutput(banners: seq<string>, lines: seq<string>): string
  {
    JoinWith(banners + Suffixed(lines, "\r\r") + [""], "\n")
  }

  /** The `close` handler's filter drops the banners and the line feeds, so
      each data line keeps its `\r\r` ending. */
  lemma FilteredOutput(banners: seq<string>, lines: seq<string>)
    requires forall i :: 0 <= i < |banners| ==> IsBanner(banners[i]) && '\n' !in banners[i]
    requires forall i :: 0 <= i < |lines| ==> '\n' !in lines[i] && '\r' !in lines[i]
    requires forall i :: 0 <= i < |lines| ==> !IsBanner(lines[i] + "\r\r")
    ensures KeptText(ToolOutput(banners, lines)) == Terminated(lines, "\r\r")
  {
    var data := Suffixed(lines, "\r\r");
    var all := banners + data + [""];
    PartsAvoidBreaks(banners, lines);
    KeptTextOfLines(all);
    KeepDataLines(banners, data);
    ConcatAppend(data, [""]);
    assert Concat([""]) == "";
    ConcatSuffixed(lines, "\r\r");
    assert Concat(data) + "" == Concat(data);
  }

  lemma PartsAvoidBreaks(banners: seq<string>, lines: seq<string>)
    requires forall i :: 0 <= i < |banners| ==> '\n' !in banners[i]
    requires forall i :: 0 <= i < |lines| ==> '\n' !in lines[i]
    ensures var all := banners + Suffixed(lines, "\r\r") + [""];
      |all| >= 1 && forall i :: 0 <= i < |all| ==> '\n' !in all[i]
  {
    var data := Suffixed(lines, "\r\r");
    var all := banners + data + [""];
    forall i | 0 <= i < |all| ensures '\n' !in all[i] {
      if |banners| <= i < |banners| + |data| {
        assert all[i] == lines[i - |banners|] + "\r\r";
      }
    }
  }

  /** After the filter, the repair restores one line feed per data line:
      the data lines, in order, each ended by a line feed. */
  lemma LineBreaksRestored(banners: seq<string>, lines: seq<string>)
    requires forall i :: 0 <= i < |banners| ==> IsBanner(banners[i]) && '\n' !in banners[i]
    requires forall i :: 0 <= i < |lines| ==> '\n' !in lines[i] && '\r' !in lines[i]
    requires forall i :: 0 <= i < |lines| ==> !IsBanner(lines[i] + "\r\r")
    ensures NormalizeLineEnds(KeptText(ToolOutput(banners, lines))) == Terminated(lines, "\n")
  {
    FilteredOutput(banners, lines);
    RepairLinesThen(lines, "");
    assert Terminated(lines, "\r\r") + "" == Terminated(lines, "\r\r");
    assert Terminated(lines, "\n") + NormalizeLineEnds("") == Terminated(lines, "\n");
  }

  /** Output made of banner lines, then at least one data line ended by
      `\r\r\n`: data lines hold no line break, are not banners even with
      their ending, and the data neither starts nor ends with whitespace. */
  predicate DataOutput(banners: seq<string>, lines: seq<string>)
  {
    && (forall i :: 0 <= i < |banners| ==> IsBanner(banners[i]) && '\n' !in banners[i])
    && (forall i :: 0 <= i < |lines| ==> '\n' !in lines[i] && '\r' !in lines[i])
    && (forall i :: 0 <= i < |lines| ==> !IsBanner(lines[i] + "\r\r"))
    && |lines| > 0 && |lines[0]| > 0 && !IsWhitespace(lines[0][0])
    && var last := lines[|lines| - 1]; |last| > 0 && !IsWhitespace(last[|last| - 1])
  }

  /** The whole path of a successful run: the `close` handler filters and
      trims the output, which drops the break after the last line, and the
      repair turns the remaining `\r\r` endings into line feeds. The
      decoder sees the data lines joined by line feeds, and the raw output
      handed on is the trimmed text. */
  lemma DecoderSeesDataLines(banners: seq<string>, lines: seq<string>, decode: string -> Decoded)
    requires DataOutput(banners, lines)
    ensures var ran := Close(Streams(ToolOutput(banners, lines), ""));
      && ran.err == None
      && ran.out == JoinWith(lines, "\r\r")
      && ParseOutput(ran.err, ran.out, decode)
         == ParseReply(decode(JoinWith(lines, "\n")).err, decode(JoinWith(lines, "\n")).rows, ran.out)
  {
    FilteredOutput(banners, lines);
    TrimmedData(lines);
    RepairJoined(lines);
  }

  /** Trimming the filtered data lines drops only the last `\r\r`. */
  lemma TrimmedData(lines: seq<string>)
    requires |lines| > 0 && |lines[0]| > 0 && !IsWhitespace(lines[0][0])
    requires var last := lines[|lines| - 1]; |last| > 0 && !IsWhitespace(last[|last| - 1])
    ensures Trim(Terminated(lines, "\r\r")) == JoinWith(lines, "\r\r")
  {
    var joined := JoinWith(lines, "\r\r");
    JoinThenSeparator(lines, "\r\r");
    JoinStarts(lines, "\r\r");
    JoinFinishes(lines, "\r\r");
    TrimSurrounded("", joined, "\r\r");
    assert "" + joined + "\r\r" == joined + "\r\r";
  }

  /** The repair turns the `\r\r` between lines without carriage returns
      into line feeds. */
  lemma RepairJoined(lines: seq<string>)
    requires |lines| > 0
    requires forall i :: 0 <= i < |lines| ==> '\r' !in lines[i]
    ensures NormalizeLineEnds(JoinWith(lines, "\r\r")) == JoinWith(lines, "\n")
  {
    var init := lines[..|lines| - 1];
    var last := lines[|lines| - 1];
    InitAvoidsCR(lines, init);
    RepairInitThenLast(init, last);
    assert init + [last] == lines;
  }

  lemma RepairInitThenLast(init: seq<string>, last: string)
    requires forall i :: 0 <= i < |init| ==> '\r' !in init[i]
    requires '\r' !in last
    ensures NormalizeLineEnds(JoinWith(init + [last], "\r\r")) == JoinWith(init + [last], "\n")
  {
    TerminatedThenLast(init, last, "\r\r");
    TerminatedThenLast(init, last, "\n");
    RepairLinesThen(init, last);
    LineWithoutCR(last);
  }

  /** A prefix of the lines keeps every line free of carriage returns. */
  lemma InitAvoidsCR(lines: seq<string>, init: seq<string>)
    requires forall i :: 0 <= i < |lines| ==> '\r' !in lines[i]
    requires |init| < |lines| && init == lines[..|init|]
    ensures forall i :: 0 <= i < |init| ==> '\r' !in init[i]
  {
    forall i | 0 <= i < |init| ensures '\r' !in init[i] {
      assert init[i] == lines[i];
    }
  }

  /** A line without carriage returns has no doubled one to repair. */
  lemma LineWithoutCR(line: string)
    requires '\r' !in line
    ensures NoDoubleCR(line) && (|line| == 0 || line[|line| - 1] != '\r')
    ensures NormalizeLineEnds(line) == line
  {
    assert NoDoubleCR(line) by {
      forall i | 0 <= i < |line| - 1 ensures !(line[i] == '\r' && line[i + 1] == '\r') {
        assert line[i] in line;
      }
    }
    NormalizeLeavesCleanText(line);
  }

  lemma {:induction false} DropBanners(banners: seq<string>)
    requires forall i :: 0 <= i < |banners| ==> IsBanner(banners[i])
    ensures KeepLines(banners) == []
  {
    if |banners| > 0 {
      DropBanners(banners[1..]);
    }
  }
}
