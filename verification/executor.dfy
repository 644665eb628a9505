/** The pure part of `execute` (lib/ms-wmic.js:128-160): the argument check
    and what the `close` handler makes of the two accumulated buffers.

    Spawning the `wmic` process and streaming data are not modelled: the
    host tool is a function `tool` from the command text written to its
    input to the two buffers it leaves behind.
 */
module Executor {
  import opened Outcomes
  import opened JsValues
  import opened Text

  /** Everything the subprocess wrote to its output and error streams. */
  datatype Streams = Streams(stdout: string, stderr: string)

  /** The `(err, stdOut)` pair the `close` handler hands to the callback. */
  datatype ExecReply = ExecReply(err: Option<Error>, out: string)

  /** A line the tool echoes in interactive mode: its first five characters,
      upper-cased, are `WMIC:`. */
  predicate IsBanner(line: string)
    ensures IsBanner(line) ==> |line| >= 5 && line[4] == ':'
  {
    Upper(Take(line, 5)) == "WMIC:"
  }

  /** Upper-casing matches `WMIC:` exactly for the spellings w/W, m/M,
      i/I/dotless i, c/C, then a colon. */
  lemma BannerSpellings(line: string)
    ensures IsBanner(line) <==>
      && |line| >= 5
      && (line[0] == 'w' || line[0] == 'W')
      && (line[1] == 'm' || line[1] == 'M')
      && (line[2] == 'i' || line[2] == 'I' || line[2] == '\U{131}')
      && (line[3] == 'c' || line[3] == 'C')
      && line[4] == ':'
  {
    var head := Take(line, 5);
    if IsBanner(line) {
      assert |head| == 5;
      assert Upper(head)[0] == 'W' && Upper(head)[1] == 'M' && Upper(head)[2] == 'I';
      assert Upper(head)[3] == 'C' && Upper(head)[4] == ':';
    } else if |line| >= 5 {
      assert Upper(head) != "WMIC:";
      assert Upper(head) == [UpperChar(line[0]), UpperChar(line[1]), UpperChar(line[2]),
                             UpperChar(line[3]), UpperChar(line[4])];
    }
  }

  /** The lines that are not banners, in their original order. */
  function KeepLines(lines: seq<string>): (r: seq<string>)
    ensures |r| <= |lines|
    ensures forall l :: l in r <==> l in lines && !IsBanner(l)
  {
    if |lines| == 0 then []
    else if IsBanner(lines[0]) then KeepLines(lines[1..])
    else [lines[0]] + KeepLines(lines[1..])
  }

  lemma {:induction false} KeepLinesAppend(a: seq<string>, b: seq<string>)
    ensures KeepLines(a + b) == KeepLines(a) + KeepLines(b)
  {
    if |a| > 0 {
      assert (a + b)[0] == a[0];
      assert (a + b)[1..] == a[1..] + b;
      KeepLinesAppend(a[1..], b);
      if !IsBanner(a[0]) {
        var k := KeepLines(a[1..]);
        assert [a[0]] + (k + KeepLines(b)) == ([a[0]] + k) + KeepLines(b);
      }
    } else {
      assert a + b == b;
    }
  }

  /** The output lines that survive the filter, written one after another
      with no separator. */
  function KeptText(stdout: string): (r: string)
    ensures '\n' !in r
  {
    var lines := Split(stdout, '\n');
    var kept := KeepLines(lines);
    assert forall i :: 0 <= i < |kept| ==> '\n' !in kept[i] by {
      forall i | 0 <= i < |kept| ensures '\n' !in kept[i] {
        assert kept[i] in lines;
      }
    }
    ConcatAvoids(kept, '\n');
    Concat(kept)
  }

  /** The `close` handler: the filtered, trimmed output, and an error made of
      the trimmed error stream whenever that stream is not empty. */
  function Close(streams: Streams): (r: ExecReply)
    ensures r.err.Some? <==> streams.stderr != ""
    ensures r.err.Some? ==> r.err.value == Error(PlainError, Trim(streams.stderr))
    ensures r.out == Trim(KeptText(streams.stdout))
    ensures '\n' !in r.out
  {
    var out := Trim(KeptText(streams.stdout));
    assert '\n' !in out by {
      if '\n' in out {
        TrimKeepsCharacters(KeptText(streams.stdout), '\n');
      }
    }
    ExecReply(if streams.stderr != "" then Some(Error(PlainError, Trim(streams.stderr))) else None, out)
  }

  /** One run of the tool on a command text, as the `close` handler reports
      it. */
  function Run(command: string, tool: string -> Streams): (r: ExecReply)
    ensures r.err.Some? <==> tool(command).stderr != ""
    ensures r.err.Some? ==> r.err.value == Error(PlainError, Trim(tool(command).stderr))
    ensures r.out == Trim(KeptText(tool(command).stdout))
    ensures '\n' !in r.out
  {
    Close(tool(command))
  }

  /** `wmic.execute(args, cb)`: a non-string command is refused; otherwise
      the tool runs on it and the `close` handler reports. */
  function Execute(args: Value, tool: string -> Streams): (r: Reply<ExecReply>)
    ensures !args.Str? ==> r == Refused(Error(TypeError, "args must be a string"))
    ensures args.Str? ==> r.Ran? && (r.reply.err.Some? <==> tool(args.s).stderr != "")
    ensures args.Str? && tool(args.s).stderr != "" ==>
      r.reply.err == Some(Error(PlainError, Trim(tool(args.s).stderr)))
    ensures args.Str? ==> r.reply.out == Trim(KeptText(tool(args.s).stdout))
  {
    if !args.Str? then Refused(Error(TypeError, "args must be a string"))
    else Ran(Run(args.s, tool))
  }

  /** A refused command does not depend on the tool: nothing is run. */
  lemma RefusedCommandRunsNothing(args: Value, tool1: string -> Streams, tool2: string -> Streams)
    requires !args.Str?
    ensures Execute(args, tool1) == Execute(args, tool2)
  {
  }

  /** Without banner lines the filter only removes the line breaks. */
  lemma NoBannersOnlyRemovesBreaks(stdout: string)
    requires forall l :: l in Split(stdout, '\n') ==> !IsBanner(l)
    ensures KeptText(stdout) == Remove(stdout, '\n')
  {
    var lines := Split(stdout, '\n');
    KeepAllLines(lines);
    ConcatSplit(stdout, '\n');
  }

  lemma {:induction false} KeepAllLines(lines: seq<string>)
    requires forall l :: l in lines ==> !IsBanner(l)
    ensures KeepLines(lines) == lines
  {
    if |lines| > 0 {
      assert lines[0] in lines;
      KeepAllLines(lines[1..]);
    }
  }

  /** Filtering text made of lines joined by line feeds keeps exactly the
      non-banner lines, concatenated in order. */
  lemma KeptTextOfLines(lines: seq<string>)
    requires |lines| >= 1
    requires forall i :: 0 <= i < |lines| ==> '\n' !in lines[i]
    ensures KeptText(JoinWith(lines, "\n")) == Concat(KeepLines(lines))
  {
    SplitJoin(lines, '\n');
  }
}
