/** The four process operations of the exported `wmic` object
    (lib/ms-wmic.js:161-244): each builds a command from its options, runs
    it once, and hands the outcome on.
 */
module Wmic {
  import opened Outcomes
  import opened JsValues
  import opened Text
  import opened WhereClause
  import opened GetClause
  import opened Executor
  import opened OutputParser

  predicate StartsWith(s: string, prefix: string)
  {
    |prefix| <= |s| && s[..|prefix|] == prefix
  }

  predicate EndsWith(s: string, suffix: string)
  {
    |suffix| <= |s| && s[|s| - |suffix|..] == suffix
  }

  /** The command texts the operations send to the tool. */
  function GetText(where: string, get: string): string
  {
    "process" + where + get + "/format:csv"
  }

  function ListText(where: string): string
  {
    "process" + where + "list /format:csv"
  }

  function CallText(where: string, name: string): string
  {
    "process" + where + "call " + name
  }

  /** A `get` command over a WHERE fragment (which opens with a space) and a
      GET fragment (which closes with one) starts `process ` and ends
      ` /format:csv`. */
  lemma GetTextFrame(where: string, get: string)
    requires |where| > 0 && where[0] == ' '
    requires |get| > 0 && get[|get| - 1] == ' '
    ensures StartsWith(GetText(where, get), "process ")
    ensures EndsWith(GetText(where, get), " /format:csv")
  {
    var s := GetText(where, get);
    assert s[..8] == "process ";
    assert s[|s| - 12..] == " /format:csv";
  }

  /** A `list` command starts `process ` and ends `list /format:csv`; the
      empty WHERE fragment gives `process list /format:csv`. */
  lemma ListTextFrame(where: string)
    requires |where| > 0 && where[0] == ' '
    ensures StartsWith(ListText(where), "process ")
    ensures EndsWith(ListText(where), "list /format:csv")
    ensures where == " " ==> ListText(where) == "process list /format:csv"
  {
    var s := ListText(where);
    assert s[..8] == "process ";
    assert s[|s| - 16..] == "list /format:csv";
  }

  /** A `call` command over a required WHERE fragment starts
      `process where "` and ends with `call ` and the method name. */
  lemma CallTextFrame(where: string, name: string)
    requires |where| >= 8 && where[..8] == " where \""
    ensures StartsWith(CallText(where, name), "process where \"")
    ensures EndsWith(CallText(where, name), "call " + name)
  {
    var s := CallText(where, name);
    assert s[..15] == "process" + where[..8];
    assert s == "process" + where + ("call " + name);
    assert s[|s| - |"call " + name|..] == "call " + name;
  }

  // ---------------------------------------------------------------------
  // process.get

  /** The command `process.get` runs: the WHERE clause is optional, the GET
      clause is required, and either failure stops the operation. */
  function GetCommand(opt: Value): (r: Result<string>)
    ensures r.Ok? <==> BuildWhereClause(opt, true).Ok? && BuildGetClause(opt).Ok?
    ensures r.Err? && BuildWhereClause(opt, true).Err? ==> r.error == BuildWhereClause(opt, true).error
    ensures BuildWhereClause(opt, true).Ok? && BuildGetClause(opt).Err? ==> r == Err(BuildGetClause(opt).error)
  {
    match BuildWhereClause(opt, true)
    case Err(e) => Err(e)
    case Ok(where) =>
      match BuildGetClause(opt)
      case Err(e) => Err(e)
      case Ok(get) => Ok(GetText(where, get))
  }

  /** Every `get` command starts `process ` and ends ` /format:csv`. */
  lemma GetCommandFrame(opt: Value)
    requires GetCommand(opt).Ok?
    ensures StartsWith(GetCommand(opt).value, "process ")
    ensures EndsWith(GetCommand(opt).value, " /format:csv")
  {
    GetTextFrame(BuildWhereClause(opt, true).value, BuildGetClause(opt).value);
  }

  /** `process.get(opt, cb)`. */
  function Get(opt: Value, tool: string -> Streams, decode: string -> Decoded): (r: Reply<ParseReply>)
    ensures r.Refused? <==> GetCommand(opt).Err?
    ensures r.Refused? ==> r.error == GetCommand(opt).error
    ensures r.Ran? ==> r.reply.raw == Close(tool(GetCommand(opt).value)).out
    ensures r.Ran? ==> r.reply == ParseOutput(Close(tool(GetCommand(opt).value)).err,
                                              Close(tool(GetCommand(opt).value)).out, decode)
  {
    match GetCommand(opt)
    case Err(e) => Refused(e)
    case Ok(cmd) =>
      var ran := Run(cmd, tool);
      Ran(ParseOutput(ran.err, ran.out, decode))
  }

  /** Without a filter, `get: [a, b]` runs `process  get a,b /format:csv`:
      the empty WHERE fragment is a single space. */
  lemma GetWithoutFilter(a: string, b: string)
    ensures GetCommand(Obj([("get", Arr([Str(a), Str(b)]))])) == Ok(GetText(" ", " get " + a + "," + b + " "))
  {
    var opt := Obj([("get", Arr([Str(a), Str(b)]))]);
    assert Prop(opt, "where") == Undefined;
    TwoFieldClause(a, b);
  }

  /** With both fragments built, the command is `process<where><get>/format:csv`. */
  lemma GetCommandOf(opt: Value, where: string, get: string)
    requires BuildWhereClause(opt, true) == Ok(where) && BuildGetClause(opt) == Ok(get)
    ensures GetCommand(opt) == Ok("process" + where + get + "/format:csv")
  {
  }

  /** A clean run of the `get` command: the caller receives the decoder's
      reading of the data lines joined by line feeds, and the data lines
      joined by `\r\r` as the raw output. */
  lemma GetReadsDataLines(opt: Value, tool: string -> Streams, decode: string -> Decoded,
                          banners: seq<string>, lines: seq<string>)
    requires GetCommand(opt).Ok? && DataOutput(banners, lines)
    requires tool(GetCommand(opt).value) == Streams(ToolOutput(banners, lines), "")
    ensures Get(opt, tool, decode) == Ran(ParseReply(decode(JoinWith(lines, "\n")).err,
                                                     decode(JoinWith(lines, "\n")).rows,
                                                     JoinWith(lines, "\r\r")))
  {
    DecoderSeesDataLines(banners, lines, decode);
  }

  /** The tool's error output reaches the caller as the error, with no rows
      and the filtered output. */
  lemma GetToolFailure(opt: Value, tool: string -> Streams, decode: string -> Decoded)
    requires GetCommand(opt).Ok?
    requires tool(GetCommand(opt).value).stderr != ""
    ensures var r := Get(opt, tool, decode);
      && r.Ran? && r.reply.rows == []
      && r.reply.err == Some(Error(PlainError, Trim(tool(GetCommand(opt).value).stderr)))
  {
  }

  // ---------------------------------------------------------------------
  // process.list

  /** The command `process.list` runs, with an optional WHERE object. A
      function passed in its place (the callback-only call) counts as no
      filter. */
  function ListCommand(where: Value): (r: Result<string>)
    ensures r.Ok? <==> BuildWhereClause(Obj([("where", where)]), true).Ok?
    ensures r.Err? ==> r.error == BuildWhereClause(Obj([("where", where)]), true).error
  {
    match BuildWhereClause(Obj([("where", where)]), true)
    case Err(e) => Err(e)
    case Ok(clause) => Ok(ListText(clause))
  }

  /** Every `list` command starts `process ` and ends `list /format:csv`;
      without conditions it is exactly `process list /format:csv`. */
  lemma ListCommandFrame(where: Value)
    ensures ListCommand(where).Ok? ==> StartsWith(ListCommand(where).value, "process ")
    ensures ListCommand(where).Ok? ==> EndsWith(ListCommand(where).value, "list /format:csv")
    ensures !IsObject(where) || Entries(where) == [] ==> ListCommand(where) == Ok("process list /format:csv")
  {
    var opt := Obj([("where", where)]);
    assert Prop(opt, "where") == where;
    if BuildWhereClause(opt, true).Ok? {
      ListTextFrame(BuildWhereClause(opt, true).value);
    }
  }

  /** With the WHERE fragment built, the command is `process<where>list /format:csv`. */
  lemma ListCommandOf(where: Value, clause: string)
    requires BuildWhereClause(Obj([("where", where)]), true) == Ok(clause)
    ensures ListCommand(where) == Ok("process" + clause + "list /format:csv")
  {
  }

  /** `process.list(where, cb)`. */
  function List(where: Value, tool: string -> Streams, decode: string -> Decoded): (r: Reply<ParseReply>)
    ensures r.Refused? <==> ListCommand(where).Err?
    ensures r.Refused? ==> r.error == ListCommand(where).error
    ensures r.Ran? ==> r.reply.raw == Close(tool(ListCommand(where).value)).out
    ensures r.Ran? ==> r.reply == ParseOutput(Close(tool(ListCommand(where).value)).err,
                                              Close(tool(ListCommand(where).value)).out, decode)
  {
    match ListCommand(where)
    case Err(e) => Refused(e)
    case Ok(cmd) =>
      var ran := Run(cmd, tool);
      Ran(ParseOutput(ran.err, ran.out, decode))
  }

  /** A clean run of the `list` command reaches the caller as the decoder's
      reading of the data lines. */
  lemma ListReadsDataLines(where: Value, tool: string -> Streams, decode: string -> Decoded,
                           banners: seq<string>, lines: seq<string>)
    requires ListCommand(where).Ok? && DataOutput(banners, lines)
    requires tool(ListCommand(where).value) == Streams(ToolOutput(banners, lines), "")
    ensures List(where, tool, decode) == Ran(ParseReply(decode(JoinWith(lines, "\n")).err,
                                                        decode(JoinWith(lines, "\n")).rows,
                                                        JoinWith(lines, "\r\r")))
  {
    DecoderSeesDataLines(banners, lines, decode);
  }

  // ---------------------------------------------------------------------
  // process.call and process.terminate

  /** The command `process.call` runs: the WHERE clause is required and the
      method name must be a non-empty string. */
  function CallCommand(opt: Value): (r: Result<string>)
    ensures r.Ok? ==> HasConditions(opt)
    ensures r.Ok? ==> Prop(opt, "call").Str? && Prop(opt, "call").s != ""
    ensures BuildWhereClause(opt, false).Err? ==> r == Err(BuildWhereClause(opt, false).error)
    ensures BuildWhereClause(opt, false).Ok? && !Prop(opt, "call").Str? ==>
      r == Err(Error(TypeError, "call property must be a string"))
    ensures BuildWhereClause(opt, false).Ok? && Prop(opt, "call") == Str("") ==>
      r == Err(Error(TypeError, "call property was an empty string"))
  {
    match BuildWhereClause(opt, false)
    case Err(e) => Err(e)
    case Ok(where) =>
      var name := Prop(opt, "call");
      if !name.Str? then Err(Error(TypeError, "call property must be a string"))
      else if name.s == "" then Err(Error(TypeError, "call property was an empty string"))
      else
        Ok(CallText(where, name.s))
  }

  /** Every `call` command starts `process where "` and ends with
      `call ` and the method name. */
  lemma CallCommandFrame(opt: Value)
    requires CallCommand(opt).Ok?
    ensures StartsWith(CallCommand(opt).value, "process where \"")
    ensures EndsWith(CallCommand(opt).value, "call " + Prop(opt, "call").s)
  {
    CallTextFrame(BuildWhereClause(opt, false).value, Prop(opt, "call").s);
  }

  /** `process.call(opt, cb)`: the tool's report is handed on as it is. */
  function Call(opt: Value, tool: string -> Streams): (r: Reply<ExecReply>)
    ensures r.Refused? <==> CallCommand(opt).Err?
    ensures r.Refused? ==> r.error == CallCommand(opt).error
    ensures r.Ran? ==> r.reply == Close(tool(CallCommand(opt).value))
  {
    match CallCommand(opt)
    case Err(e) => Refused(e)
    case Ok(cmd) => Ran(Run(cmd, tool))
  }

  /** A clean run of the `call` command hands the caller no error and the
      data lines joined by `\r\r`, with no CSV decoding. */
  lemma CallReadsDataLines(opt: Value, tool: string -> Streams, banners: seq<string>, lines: seq<string>)
    requires CallCommand(opt).Ok? && DataOutput(banners, lines)
    requires tool(CallCommand(opt).value) == Streams(ToolOutput(banners, lines), "")
    ensures Call(opt, tool) == Ran(ExecReply(None, JoinWith(lines, "\r\r")))
  {
    DecoderSeesDataLines(banners, lines, (t: string) => Decoded(None, []));
  }

  /** The output `terminate` reads as "no such process". */
  const NoInstances := "No Instance(s) Available"

  /** `process.terminate(opt, cb)`: `call` with the method forced to
      `terminate`; an error-free report mentioning no instances becomes an
      error carrying that output. */
  function Terminate(opt: Value, tool: string -> Streams): (r: Reply<ExecReply>)
    ensures r.Refused? <==> Call(Extend(opt, "call", Str("terminate")), tool).Refused?
    ensures r.Refused? ==> r.error == Call(Extend(opt, "call", Str("terminate")), tool).error
    ensures r.Ran? ==> r.reply.out == Call(Extend(opt, "call", Str("terminate")), tool).reply.out
    ensures r.Ran? && Call(Extend(opt, "call", Str("terminate")), tool).reply.err.Some? ==>
      r.reply.err == Call(Extend(opt, "call", Str("terminate")), tool).reply.err
  {
    match Call(Extend(opt, "call", Str("terminate")), tool)
    case Refused(e) => Refused(e)
    case Ran(reply) =>
      var err :=
        if reply.err.Some? then reply.err
        else if Contains(reply.out, NoInstances) then Some(Error(PlainError, reply.out))
        else None;
      Ran(ExecReply(err, reply.out))
  }

  /** Lacking a WHERE object is fatal for `call`, unlike for `get`. */
  lemma CallRequiresConditions(opt: Value, tool: string -> Streams)
    requires !HasConditions(opt)
    ensures Call(opt, tool).Refused?
    ensures Call(opt, tool).error.kind in {TypeError, RangeError}
  {
  }

  /** Forcing the method name changes nothing else: `terminate` runs
      `process<where>call terminate` whatever `call` the caller gave. */
  lemma TerminateCommand(opt: Value)
    requires opt.Obj? && BuildWhereClause(opt, false).Ok?
    ensures CallCommand(Extend(opt, "call", Str("terminate")))
      == Ok(CallText(BuildWhereClause(opt, false).value, "terminate"))
  {
    var forced := Extend(opt, "call", Str("terminate"));
    WhereReadsOnlyWhere(forced, opt, false);
    CallCommandOf(forced, BuildWhereClause(opt, false).value, "terminate");
  }

  /** With a WHERE fragment and a non-empty method name, the command is
      `process<where>call <name>`. */
  lemma CallCommandOf(opt: Value, where: string, name: string)
    requires BuildWhereClause(opt, false) == Ok(where)
    requires Prop(opt, "call") == Str(name) && name != ""
    ensures CallCommand(opt) == Ok(CallText(where, name))
  {
  }

  /** The WHERE fragment depends only on whether the options are an object
      and on their `where` property. */
  lemma WhereReadsOnlyWhere(a: Value, b: Value, optional: bool)
    requires IsObject(a) == IsObject(b) && Prop(a, "where") == Prop(b, "where")
    ensures BuildWhereClause(a, optional) == BuildWhereClause(b, optional)
  {
  }

  /** A value that is not a plain object has no `where`, so `terminate`
      refuses it before running anything. */
  lemma TerminateNeedsObject(opt: Value, tool: string -> Streams)
    requires !opt.Obj?
    ensures Terminate(opt, tool).Refused?
    ensures Terminate(opt, tool).error.kind == TypeError
  {
  }

  /** `terminate` fails exactly when the tool wrote to its error stream or
      its output mentions no instances; in the second case the error
      message is the output itself. */
  lemma TerminateOutcome(opt: Value, tool: string -> Streams)
    requires Terminate(opt, tool).Ran?
    ensures var r := Terminate(opt, tool).reply;
      var cmd := CallCommand(Extend(opt, "call", Str("terminate"))).value;
      && (r.err.Some? <==> tool(cmd).stderr != "" || Contains(r.out, NoInstances))
      && (tool(cmd).stderr == "" && Contains(r.out, NoInstances) ==> r.err == Some(Error(PlainError, r.out)))
  {
  }

  /** A failed build is reported without running the tool: the outcome is
      the same whatever the tool would have done. */
  lemma RefusalRunsNothing(opt: Value, tool1: string -> Streams, tool2: string -> Streams, decode: string -> Decoded)
    ensures GetCommand(opt).Err? ==> Get(opt, tool1, decode) == Get(opt, tool2, decode)
    ensures ListCommand(opt).Err? ==> List(opt, tool1, decode) == List(opt, tool2, decode)
    ensures CallCommand(opt).Err? ==> Call(opt, tool1) == Call(opt, tool2)
  {
  }
}
