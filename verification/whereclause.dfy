/** The WHERE-clause builder (`buildWhereClause`, lib/ms-wmic.js:6-77).

    The source walks the snapshot of `_.keys(opt.where)` with
    `async.forEachOfSeries`, appending to a shared string and stopping at the
    first callback error. Here that walk is `Fold`, a short-circuiting fold
    over the entries, and the builder returns a `Result`.
 */
module WhereClause {
  import opened Outcomes
  import opened JsValues
  import opened Text

  /** One `<property> <operator> '<value>'` condition. */
  datatype Comparison = Comparison(prop: string, op: string, value: string)

  /** The text of one condition. Quotes inside the value are not escaped. */
  function Render(c: Comparison): string
  {
    c.prop + " " + c.op + " '" + c.value + "'"
  }

  function PropertyError(prop: string, problem: string): Error
  {
    Error(TypeError, "where object property \"" + prop + "\": " + problem)
  }

  /** The three checks of `buildComparison`, in the source's order. */
  function CheckComparison(prop: string, operator: Value, value: Value): (r: Result<Comparison>)
    ensures r.Ok? <==> operator.Str? && (value.Str? || value.Num?) && ToText(value) != ""
    ensures r.Ok? ==> r.value.prop == prop && r.value.op == operator.s && r.value.value == ToText(value)
    ensures r.Err? ==> r.error.kind == TypeError
    ensures !operator.Str? ==> r == Err(PropertyError(prop, "operator is not a string"))
    ensures operator.Str? && !(value.Str? || value.Num?) ==>
      r == Err(PropertyError(prop, "value is not a string or number"))
    ensures operator.Str? && (value.Str? || value.Num?) && ToText(value) == "" ==>
      r == Err(PropertyError(prop, "value was an empty string"))
  {
    if !operator.Str? then Err(PropertyError(prop, "operator is not a string"))
    else if !(value.Str? || value.Num?) then Err(PropertyError(prop, "value is not a string or number"))
    else if ToText(value) == "" then Err(PropertyError(prop, "value was an empty string"))
    else Ok(Comparison(prop, operator.s, ToText(value)))
  }

  /** The comparison a key of the WHERE object stands for: a plain object
      supplies its own `operator` and `value`, anything else is compared
      with `=`. */
  function CheckEntry(e: (string, Value)): (r: Result<Comparison>)
    ensures r.Ok? ==> r.value.prop == e.0
    ensures !IsPlainObject(e.1) ==> (r.Ok? <==> (e.1.Str? || e.1.Num?) && ToText(e.1) != "")
    ensures !IsPlainObject(e.1) && r.Ok? ==> r.value.op == "=" && r.value.value == ToText(e.1)
    ensures IsPlainObject(e.1) && r.Ok? ==>
      && Prop(e.1, "operator") == Str(r.value.op)
      && (Prop(e.1, "value").Str? || Prop(e.1, "value").Num?)
      && ToText(Prop(e.1, "value")) == r.value.value
    ensures IsPlainObject(e.1) ==>
      (r.Ok? <==> && Prop(e.1, "operator").Str?
                  && (Prop(e.1, "value").Str? || Prop(e.1, "value").Num?)
                  && ToText(Prop(e.1, "value")) != "")
    ensures IsPlainObject(e.1) && r.Err? ==> r == CheckComparison(e.0, Prop(e.1, "operator"), Prop(e.1, "value"))
    ensures !IsPlainObject(e.1) && r.Err? ==> r == CheckComparison(e.0, Str("="), e.1)
    ensures r.Err? ==> r.error.kind == TypeError
  {
    if IsPlainObject(e.1) then CheckComparison(e.0, Prop(e.1, "operator"), Prop(e.1, "value"))
    else CheckComparison(e.0, Str("="), e.1)
  }

  /** The top-level operator is accepted when it upper-cases to AND or OR. */
  predicate IsValidOperator(s: string)
  {
    Upper(s) == "AND" || Upper(s) == "OR"
  }

  /** The operator the separator is written with: the caller's string as
      written, or `AND` when the caller gave no string (line 52). */
  function EffectiveOperator(where: Value): (r: string)
    ensures IsValidOperator(r) <==> !Prop(where, "operator").Str? || IsValidOperator(Prop(where, "operator").s)
    ensures Prop(where, "operator").Str? ==> r == Prop(where, "operator").s
    ensures !Prop(where, "operator").Str? ==> r == "AND"
  {
    var operator := Prop(where, "operator");
    if operator.Str? then operator.s else "AND"
  }

  /** The entries the walk visits. The key list is taken before `operator`
      is defaulted, so a defaulted operator is not visited; but the value of
      an existing `operator` key is read after the defaulting, so it is the
      effective operator string. */
  function VisitedEntries(where: Value, op: string): (r: seq<(string, Value)>)
    ensures |r| == |Entries(where)|
    ensures forall i :: 0 <= i < |r| ==> r[i].0 == Entries(where)[i].0
    ensures forall i :: 0 <= i < |r| && r[i].0 != "operator" ==> r[i].1 == Entries(where)[i].1
  {
    var es := Entries(where);
    seq(|es|, i requires 0 <= i < |es| =>
      if es[i].0 == "operator" then ("operator", Str(op)) else es[i])
  }

  /** The walk over the entries. The separator after an entry is the
      operator when more keys follow (`i < keys.length - 1`, that is, the
      remaining suffix is longer than one) and a closing quote otherwise. An
      entry called `operator` is checked but writes nothing. */
  function Fold(es: seq<(string, Value)>, op: string): (r: Result<string>)
    ensures r.Err? ==> r.error.kind == TypeError
  {
    if |es| == 0 then Ok("")
    else
      match CheckEntry(es[0])
      case Err(e) => Err(e)
      case Ok(c) =>
        var piece :=
          if es[0].0 == "operator" then ""
          else Render(c) + (if |es| > 1 then " " + op + " " else "\" ");
        match Fold(es[1..], op)
        case Err(e) => Err(e)
        case Ok(rest) => Ok(piece + rest)
  }

  /** A structural failure, reported only when the clause is required. */
  function Relaxed(optional: bool, e: Error): (r: Result<string>)
    ensures optional ==> r == Ok(" ")
    ensures !optional ==> r == Err(e)
  {
    if optional then Ok(" ") else Err(e)
  }

  /** The options carry a WHERE object with at least one key. */
  predicate HasConditions(opt: Value)
  {
    IsObject(opt) && IsObject(Prop(opt, "where")) && |Entries(Prop(opt, "where"))| > 0
  }

  /** `buildWhereClause(opt, optional, cb)`, as the `(err, clause)` pair the
      callback receives. */
  function BuildWhereClause(opt: Value, optional: bool): (r: Result<string>)
    ensures !HasConditions(opt) ==> (r.Ok? <==> optional)
    ensures !HasConditions(opt) && optional ==> r == Ok(" ")
    ensures HasConditions(opt) && r.Ok? ==> |r.value| >= 8 && r.value[..8] == " where \""
    ensures r.Err? && r.error.kind == RangeError ==> !optional && Entries(Prop(opt, "where")) == []
    ensures r.Ok? ==> |r.value| > 0 && r.value[0] == ' '
  {
    if !IsObject(opt) then Relaxed(optional, Error(TypeError, "opt must be an object"))
    else
      var where := Prop(opt, "where");
      if !IsObject(where) then Relaxed(optional, Error(TypeError, "where property must be an object"))
      else if |Entries(where)| == 0 then Relaxed(optional, Error(RangeError, "where object was empty"))
      else
        var operator := Prop(where, "operator");
        if operator.Str? && !IsValidOperator(operator.s) then
          Err(Error(SyntaxError, "opt.where.operator must be \"AND\" or \"OR\""))
        else
          var op := EffectiveOperator(where);
          match Fold(VisitedEntries(where, op), op)
          case Err(e) => Err(e)
          case Ok(body) => Ok(" where \"" + body)
  }

  // ---------------------------------------------------------------------
  // The reference shape of a clause, and the fold proved against it.

  predicate ValidAt(es: seq<(string, Value)>, i: int)
    requires 0 <= i < |es|
  {
    CheckEntry(es[i]).Ok?
  }

  predicate AllValid(es: seq<(string, Value)>)
  {
    forall i :: 0 <= i < |es| ==> ValidAt(es, i)
  }

  /** The comparisons of the entries other than `operator`, in key order. */
  function Comparisons(es: seq<(string, Value)>): (r: seq<Comparison>)
    requires AllValid(es)
    ensures |r| <= |es|
    ensures forall i :: 0 <= i < |r| ==> r[i].prop != "operator"
  {
    if |es| == 0 then []
    else
      assert AllValid(es[1..]) by {
        forall i | 0 <= i < |es[1..]| ensures ValidAt(es[1..], i) {
          assert ValidAt(es, i + 1);
        }
      }
      assert ValidAt(es, 0);
      if es[0].0 == "operator" then Comparisons(es[1..])
      else [CheckEntry(es[0]).value] + Comparisons(es[1..])
  }

  function Renders(cs: seq<Comparison>): (r: seq<string>)
    ensures |r| == |cs|
    ensures forall i :: 0 <= i < |cs| ==> r[i] == Render(cs[i])
  {
    seq(|cs|, i requires 0 <= i < |cs| => Render(cs[i]))
  }

  /** The clause body as the comparisons joined by ` <op> `. If the last key
      is `operator`, every comparison is followed by the separator and no
      quote closes the clause; otherwise the last comparison is followed by
      `" ` instead. */
  function ExpectedBody(es: seq<(string, Value)>, op: string): string
    requires |es| > 0 && AllValid(es)
  {
    var rs := Renders(Comparisons(es));
    var sep := " " + op + " ";
    if es[|es| - 1].0 == "operator" then Terminated(rs, sep) else JoinWith(rs, sep) + "\" "
  }

  lemma AllValidTail(es: seq<(string, Value)>)
    requires |es| > 0 && AllValid(es)
    ensures AllValid(es[1..]) && ValidAt(es, 0)
  {
    forall i | 0 <= i < |es[1..]| ensures ValidAt(es[1..], i) {
      assert ValidAt(es, i + 1);
    }
  }

  /** The last key is a comparison, so there is at least one. */
  lemma {:induction false} LastComparisonExists(es: seq<(string, Value)>)
    requires |es| > 0 && AllValid(es) && es[|es| - 1].0 != "operator"
    ensures |Comparisons(es)| > 0
  {
    AllValidTail(es);
    if es[0].0 == "operator" {
      LastComparisonExists(es[1..]);
    }
  }

  /** The fold succeeds exactly when every entry passes its checks. */
  lemma {:induction false} FoldSucceedsIffAllValid(es: seq<(string, Value)>, op: string)
    ensures Fold(es, op).Ok? <==> AllValid(es)
  {
    if |es| > 0 {
      FoldSucceedsIffAllValid(es[1..], op);
      if AllValid(es) {
        AllValidTail(es);
      } else if ValidAt(es, 0) {
        var i :| 0 <= i < |es| && !ValidAt(es, i);
        assert !ValidAt(es[1..], i - 1);
      }
    }
  }

  /** Validation stops at the first entry, in key order, that fails: its
      error is the fold's error, whatever follows it. */
  lemma {:induction false} FoldStopsAtFirstInvalid(es: seq<(string, Value)>, op: string, i: nat)
    requires i < |es| && !ValidAt(es, i)
    requires forall j :: 0 <= j < i ==> ValidAt(es, j)
    ensures Fold(es, op) == Err(CheckEntry(es[i]).error)
  {
    if i > 0 {
      ValidPrefixTail(es, i);
      assert es[1..][i - 1] == es[i];
      FoldStopsAtFirstInvalid(es[1..], op, i - 1);
      FoldPassesError(es, op);
    } else {
      assert !CheckEntry(es[0]).Ok?;
    }
  }

  /** Dropping the first entry keeps the valid prefix valid. */
  lemma ValidPrefixTail(es: seq<(string, Value)>, i: nat)
    requires 0 < i <= |es|
    requires forall j :: 0 <= j < i ==> ValidAt(es, j)
    ensures ValidAt(es, 0)
    ensures forall j :: 0 <= j < i - 1 ==> ValidAt(es[1..], j)
  {
    forall j | 0 <= j < i - 1 ensures ValidAt(es[1..], j) {
      assert es[1..][j] == es[j + 1];
      assert ValidAt(es, j + 1);
    }
  }

  /** An error from the rest of the walk is the walk's error. */
  lemma FoldPassesError(es: seq<(string, Value)>, op: string)
    requires |es| > 0 && ValidAt(es, 0) && Fold(es[1..], op).Err?
    ensures Fold(es, op) == Fold(es[1..], op)
  {
  }

  /** What the walk writes for its first entry. */
  function Piece(es: seq<(string, Value)>, op: string): string
    requires |es| > 0 && ValidAt(es, 0)
  {
    if es[0].0 == "operator" then ""
    else Render(CheckEntry(es[0]).value) + (if |es| > 1 then " " + op + " " else "\" ")
  }

  /** One step of the walk over a valid first entry. */
  lemma FoldStep(es: seq<(string, Value)>, op: string, rest: string)
    requires |es| > 0 && ValidAt(es, 0)
    requires Fold(es[1..], op) == Ok(rest)
    ensures Fold(es, op) == Ok(Piece(es, op) + rest)
  {
  }

  /** The comparisons of a one-entry walk. */
  lemma ComparisonsOfOne(es: seq<(string, Value)>)
    requires |es| == 1 && AllValid(es)
    ensures ValidAt(es, 0)
    ensures es[0].0 == "operator" ==> Comparisons(es) == []
    ensures es[0].0 != "operator" ==> Comparisons(es) == [CheckEntry(es[0]).value]
  {
    assert es[1..] == [];
  }

  /** The comparisons of a longer walk: the first entry's, then the rest. */
  lemma ComparisonsOfMore(es: seq<(string, Value)>)
    requires |es| > 0 && AllValid(es)
    ensures AllValid(es[1..]) && ValidAt(es, 0)
    ensures es[0].0 == "operator" ==> Comparisons(es) == Comparisons(es[1..])
    ensures es[0].0 != "operator" ==> Comparisons(es) == [CheckEntry(es[0]).value] + Comparisons(es[1..])
  {
    AllValidTail(es);
  }

  /** A successful fold writes the comparisons joined by the separator, in
      key order, without the `operator` key. */
  lemma {:induction false} FoldShape(es: seq<(string, Value)>, op: string)
    requires |es| > 0 && AllValid(es)
    ensures Fold(es, op) == Ok(ExpectedBody(es, op))
  {
    if |es| == 1 {
      FoldShapeOne(es, op);
    } else {
      var rest := es[1..];
      assert rest[|rest| - 1] == es[|es| - 1];
      AllValidTail(es);
      ComparisonsOfMore(es);
      FoldShape(rest, op);
      FoldStep(es, op, ExpectedBody(rest, op));
      ShapeStep(es, op);
    }
  }

  /** The walk over a single entry. */
  lemma FoldShapeOne(es: seq<(string, Value)>, op: string)
    requires |es| == 1 && AllValid(es)
    ensures Fold(es, op) == Ok(ExpectedBody(es, op))
  {
    var sep := " " + op + " ";
    ComparisonsOfOne(es);
    assert Fold(es[1..], op) == Ok("");
    FoldStep(es, op, "");
    if es[0].0 != "operator" {
      var r := Render(CheckEntry(es[0]).value);
      assert Renders(Comparisons(es)) == [r];
      assert ExpectedBody(es, op) == r + "\" ";
      assert Piece(es, op) + "" == r + "\" ";
    } else {
      assert Renders(Comparisons(es)) == [];
      assert ExpectedBody(es, op) == Terminated([], sep) == "";
      assert Piece(es, op) + "" == "";
    }
  }

  /** The expected body of a longer walk is the first piece followed by the
      expected body of the rest. */
  lemma ShapeStep(es: seq<(string, Value)>, op: string)
    requires |es| > 1 && AllValid(es)
    ensures AllValid(es[1..])
    ensures ExpectedBody(es, op) == Piece(es, op) + ExpectedBody(es[1..], op)
  {
    var rest := es[1..];
    assert rest[|rest| - 1] == es[|es| - 1];
    ComparisonsOfMore(es);
    var rs := Renders(Comparisons(rest));
    var sep := " " + op + " ";
    if es[0].0 != "operator" {
      var r := Render(CheckEntry(es[0]).value);
      assert Renders(Comparisons(es)) == [r] + rs;
      assert Piece(es, op) == r + sep;
      if es[|es| - 1].0 != "operator" {
        LastComparisonExists(rest);
        JoinCons(r, rs, sep);
        assert (r + sep + JoinWith(rs, sep)) + "\" " == (r + sep) + (JoinWith(rs, sep) + "\" ");
      } else {
        TerminatedCons(r, rs, sep);
      }
    } else {
      assert Piece(es, op) == "";
      assert "" + ExpectedBody(rest, op) == ExpectedBody(rest, op);
    }
  }

  // ---------------------------------------------------------------------
  // Properties of the builder.

  /** With a usable WHERE object, a valid operator and valid entries, the
      clause is ` where "` followed by the joined comparisons. */
  lemma WhereClauseShape(opt: Value, optional: bool)
    requires HasConditions(opt)
    requires var w := Prop(opt, "where");
      !Prop(w, "operator").Str? || IsValidOperator(Prop(w, "operator").s)
    requires var w := Prop(opt, "where");
      AllValid(VisitedEntries(w, EffectiveOperator(w)))
    ensures var w := Prop(opt, "where"); var op := EffectiveOperator(w);
      BuildWhereClause(opt, optional) == Ok(" where \"" + ExpectedBody(VisitedEntries(w, op), op))
  {
    var w := Prop(opt, "where");
    FoldShape(VisitedEntries(w, EffectiveOperator(w)), EffectiveOperator(w));
  }

  /** The clause is required exactly when `optional` is false: the missing
      or empty WHERE object is then a type or range error, and otherwise
      `optional` changes nothing. */
  lemma OptionalOnlyRelaxesStructure(opt: Value)
    ensures HasConditions(opt) ==> BuildWhereClause(opt, true) == BuildWhereClause(opt, false)
    ensures !IsObject(opt) ==> BuildWhereClause(opt, false) == Err(Error(TypeError, "opt must be an object"))
    ensures IsObject(opt) && !IsObject(Prop(opt, "where")) ==>
      BuildWhereClause(opt, false) == Err(Error(TypeError, "where property must be an object"))
    ensures IsObject(opt) && IsObject(Prop(opt, "where")) && Entries(Prop(opt, "where")) == [] ==>
      BuildWhereClause(opt, false) == Err(Error(RangeError, "where object was empty"))
  {
  }

  /** A string operator other than AND/OR is refused even when the clause is
      optional. */
  lemma BadOperatorRefused(opt: Value, optional: bool)
    requires HasConditions(opt)
    requires Prop(Prop(opt, "where"), "operator").Str?
    requires !IsValidOperator(Prop(Prop(opt, "where"), "operator").s)
    ensures BuildWhereClause(opt, optional).Err?
    ensures BuildWhereClause(opt, optional).error.kind == SyntaxError
    ensures BuildWhereClause(opt, optional) == Err(Error(SyntaxError, "opt.where.operator must be \"AND\" or \"OR\""))
  {
  }

  /** The `operator` key never fails a check and is never written as a
      comparison. */
  lemma OperatorEntryIsSilent(where: Value, op: string, i: nat)
    requires op != ""
    requires i < |Entries(where)| && Entries(where)[i].0 == "operator"
    ensures ValidAt(VisitedEntries(where, op), i)
  {
  }

  /** Entries are rejected in key order: the first invalid entry names the
      error, even when later ones are invalid too. */
  lemma WhereFirstInvalidWins(opt: Value, optional: bool, i: nat)
    requires HasConditions(opt)
    requires var w := Prop(opt, "where");
      !Prop(w, "operator").Str? || IsValidOperator(Prop(w, "operator").s)
    requires var w := Prop(opt, "where"); var es := VisitedEntries(w, EffectiveOperator(w));
      i < |es| && !ValidAt(es, i) && forall j :: 0 <= j < i ==> ValidAt(es, j)
    ensures var w := Prop(opt, "where"); var es := VisitedEntries(w, EffectiveOperator(w));
      BuildWhereClause(opt, optional) == Err(CheckEntry(es[i]).error)
    ensures BuildWhereClause(opt, optional).error.kind == TypeError
  {
    var w := Prop(opt, "where");
    FoldStopsAtFirstInvalid(VisitedEntries(w, EffectiveOperator(w)), EffectiveOperator(w), i);
  }

  /** Without an `operator` key the clause is always closed by `" `: the
      defaulted operator is only used as the separator. */
  lemma DefaultedOperatorClosesClause(opt: Value, optional: bool)
    requires HasConditions(opt)
    requires forall i :: 0 <= i < |Entries(Prop(opt, "where"))| ==> Entries(Prop(opt, "where"))[i].0 != "operator"
    requires BuildWhereClause(opt, optional).Ok?
    ensures var r := BuildWhereClause(opt, optional).value;
      |r| >= 2 && r[|r| - 2..] == "\" "
  {
    var w := Prop(opt, "where");
    var op := EffectiveOperator(w);
    var es := VisitedEntries(w, op);
    FoldSucceedsIffAllValid(es, op);
    FoldShape(es, op);
  }

  /** When `operator` is the last key, the clause ends with the separator and
      no closing quote follows the last comparison. */
  lemma OperatorLastLeavesClauseOpen(opt: Value, optional: bool)
    requires HasConditions(opt)
    requires var es := Entries(Prop(opt, "where")); es[|es| - 1].0 == "operator"
    requires BuildWhereClause(opt, optional).Ok?
    ensures var w := Prop(opt, "where"); var op := EffectiveOperator(w);
      var es := VisitedEntries(w, op);
      && AllValid(es)
      && BuildWhereClause(opt, optional) == Ok(" where \"" + Terminated(Renders(Comparisons(es)), " " + op + " "))
  {
    var w := Prop(opt, "where");
    var op := EffectiveOperator(w);
    var es := VisitedEntries(w, op);
    assert es[|es| - 1].0 == "operator";
    FoldSucceedsIffAllValid(es, op);
    FoldShape(es, op);
    assert ExpectedBody(es, op) == Terminated(Renders(Comparisons(es)), " " + op + " ");
  }

  // ---------------------------------------------------------------------
  // The operator check, spelled out.

  /** The only characters that upper-case to A, N, D, O or R are the letter
      itself and its lower-case form. */
  lemma UpperCharTo(c: char, u: char)
    requires u == 'A' || u == 'N' || u == 'D' || u == 'O' || u == 'R'
    ensures UpperChar(c) == u <==> c == u || c == (u as int + 32) as char
  {
  }

  /** The accepted operators are exactly the twelve case spellings of AND
      and OR. */
  lemma ValidOperatorSpellings(s: string)
    ensures IsValidOperator(s) <==> s in {"AND", "ANd", "AnD", "And", "aND", "aNd", "anD", "and",
                                          "OR", "Or", "oR", "or"}
  {
    if |s| == 3 {
      UpperCharTo(s[0], 'A');
      UpperCharTo(s[1], 'N');
      UpperCharTo(s[2], 'D');
      if Upper(s) == "AND" {
        assert s == [s[0], s[1], s[2]];
      }
    } else if |s| == 2 {
      UpperCharTo(s[0], 'O');
      UpperCharTo(s[1], 'R');
      if Upper(s) == "OR" {
        assert s == [s[0], s[1]];
      }
    }
  }

  // ---------------------------------------------------------------------
  // Reading a condition back.

  /** The text before the first space and the text after it. */
  function BreakAtSpace(s: string): Option<(string, string)>
  {
    if |s| == 0 then None
    else if s[0] == ' ' then Some(("", s[1..]))
    else
      match BreakAtSpace(s[1..])
      case None => None
      case Some(parts) => Some(([s[0]] + parts.0, parts.1))
  }

  lemma {:induction false} BreakAtFirstSpace(a: string, b: string)
    requires ' ' !in a
    ensures BreakAtSpace(a + " " + b) == Some((a, b))
  {
    var s := a + " " + b;
    if |a| == 0 {
      assert s[1..] == b;
    } else {
      assert s[1..] == a[1..] + " " + b;
      BreakAtFirstSpace(a[1..], b);
      assert [a[0]] + a[1..] == a;
    }
  }

  /** Reads `<property> <operator> '<value>'` back into its three parts. */
  function ParseComparison(t: string): Option<Comparison>
  {
    match BreakAtSpace(t)
    case None => None
    case Some(first) =>
      match BreakAtSpace(first.1)
      case None => None
      case Some(second) =>
        var quoted := second.1;
        if |quoted| >= 2 && quoted[0] == '\'' && quoted[|quoted| - 1] == '\'' then
          Some(Comparison(first.0, second.0, quoted[1..|quoted| - 1]))
        else None
  }

  /** A condition whose property and operator contain no space is read back
      as written, whatever its value contains. */
  lemma RenderRoundTrip(c: Comparison)
    requires ' ' !in c.prop && ' ' !in c.op
    ensures ParseComparison(Render(c)) == Some(c)
  {
    var quoted := "'" + c.value + "'";
    assert Render(c) == c.prop + " " + (c.op + " " + quoted);
    BreakAtFirstSpace(c.prop, c.op + " " + quoted);
    BreakAtFirstSpace(c.op, quoted);
    assert quoted[1..|quoted| - 1] == c.value;
  }

  // ---------------------------------------------------------------------
  // Worked cases.

  lemma Regroup2(p: string, a: string, m: string, b: string, q: string)
    ensures p + ((a + m) + (b + q)) == p + a + m + b + q
  {
  }

  lemma Regroup3(p: string, a: string, b: string, c: string, d: string)
    ensures p + (a + (b + c + d)) == p + a + b + c + d
  {
  }

  /** A single scalar condition, for instance `{where: {name: 'x'}}`,
      gives ` where "name = 'x'" `. */
  lemma SingleKeyClause(key: string, v: string, optional: bool)
    requires key != "operator" && v != ""
    ensures BuildWhereClause(Obj([("where", Obj([(key, Str(v))]))]), optional)
      == Ok(" where \"" + Render(Comparison(key, "=", v)) + "\" ")
  {
    var w := Obj([(key, Str(v))]);
    var opt := Obj([("where", w)]);
    assert Prop(opt, "where") == w;
    assert Prop(w, "operator") == Undefined;
    var es := VisitedEntries(w, "AND");
    assert es == [(key, Str(v))];
    assert Fold(es[1..], "AND") == Ok("");
    FoldStep(es, "AND", "");
    var r := Render(Comparison(key, "=", v));
    assert (r + "\" ") + "" == r + "\" ";
    ClauseFromFold(opt, optional, r + "\" ");
    Associate(" where \"", r, "\" ");
  }

  /** A condition given as a plain object uses its own operator, for instance
      `{where: {name: {operator: 'LIKE', value: 'x%'}}}` gives
      ` where "name LIKE 'x%'" `. */
  lemma ObjectConditionClause(key: string, o: string, v: string, optional: bool)
    requires key != "operator" && v != ""
    ensures BuildWhereClause(Obj([("where", Obj([(key, Obj([("operator", Str(o)), ("value", Str(v))]))]))]), optional)
      == Ok(" where \"" + Render(Comparison(key, o, v)) + "\" ")
  {
    var c := Obj([("operator", Str(o)), ("value", Str(v))]);
    var w := Obj([(key, c)]);
    var opt := Obj([("where", w)]);
    assert Prop(opt, "where") == w;
    assert Prop(w, "operator") == Undefined;
    assert Prop(c, "operator") == Str(o) && Prop(c, "value") == Str(v);
    var es := VisitedEntries(w, "AND");
    assert es == [(key, c)];
    assert Fold(es[1..], "AND") == Ok("");
    FoldStep(es, "AND", "");
    var r := Render(Comparison(key, o, v));
    assert (r + "\" ") + "" == r + "\" ";
    ClauseFromFold(opt, optional, r + "\" ");
    Associate(" where \"", r, "\" ");
  }

  /** Two scalar conditions joined by the default operator, for instance
      `{where: {name: 'x', pid: 4}}` gives ` where "name = 'x' AND pid = '4'" `. */
  lemma TwoKeyClause(k1: string, v1: string, k2: string, v2: string, optional: bool)
    requires k1 != "operator" && k2 != "operator" && v1 != "" && v2 != ""
    requires k1 != k2
    ensures BuildWhereClause(Obj([("where", Obj([(k1, Str(v1)), (k2, Str(v2))]))]), optional)
      == Ok(" where \"" + Render(Comparison(k1, "=", v1)) + " AND " + Render(Comparison(k2, "=", v2)) + "\" ")
  {
    var w := Obj([(k1, Str(v1)), (k2, Str(v2))]);
    var opt := Obj([("where", w)]);
    assert Prop(opt, "where") == w;
    assert Prop(w, "operator") == Undefined;
    var es := VisitedEntries(w, "AND");
    assert es == [(k1, Str(v1)), (k2, Str(v2))];
    var r1 := Render(Comparison(k1, "=", v1));
    var r2 := Render(Comparison(k2, "=", v2));
    assert Fold(es[1..][1..], "AND") == Ok("");
    FoldStep(es[1..], "AND", "");
    assert Fold(es[1..], "AND") == Ok((r2 + "\" ") + "");
    FoldStep(es, "AND", (r2 + "\" ") + "");
    assert " " + "AND" + " " == " AND ";
    assert (r2 + "\" ") + "" == r2 + "\" ";
    ClauseFromFold(opt, optional, (r1 + " AND ") + (r2 + "\" "));
    Regroup2(" where \"", r1, " AND ", r2, "\" ");
  }

  /** A WHERE object with a usable operator yields its fold's text after
      ` where "`. */
  lemma ClauseFromFold(opt: Value, optional: bool, body: string)
    requires HasConditions(opt)
    requires var w := Prop(opt, "where");
      !Prop(w, "operator").Str? || IsValidOperator(Prop(w, "operator").s)
    requires var w := Prop(opt, "where");
      Fold(VisitedEntries(w, EffectiveOperator(w)), EffectiveOperator(w)) == Ok(body)
    ensures BuildWhereClause(opt, optional) == Ok(" where \"" + body)
  {
  }

  /** The walk over a comparison followed by an `operator` key ends with
      the separator. */
  lemma TrailingOperatorFold(key: string, v: string, op: string)
    requires key != "operator" && v != "" && op != ""
    ensures Fold([(key, Str(v)), ("operator", Str(op))], op)
      == Ok(Render(Comparison(key, "=", v)) + (" " + op + " "))
  {
    var es := [(key, Str(v)), ("operator", Str(op))];
    assert es[1..] == [("operator", Str(op))];
    assert Fold(es[1..][1..], op) == Ok("");
    FoldStep(es[1..], op, "");
    assert Fold(es[1..], op) == Ok("" + "");
    FoldStep(es, op, "" + "");
    var r := Render(Comparison(key, "=", v));
    assert (r + (" " + op + " ")) + ("" + "") == r + (" " + op + " ");
  }

  /** An explicit `operator` as the last key leaves the clause open: the
      caller's spelling is the separator and no quote closes it, for
      instance `{where: {name: 'x', operator: 'or'}}` gives
      ` where "name = 'x' or `. */
  lemma OperatorLastClause(key: string, v: string, op: string, optional: bool)
    requires key != "operator" && v != "" && IsValidOperator(op)
    ensures BuildWhereClause(Obj([("where", Obj([(key, Str(v)), ("operator", Str(op))]))]), optional)
      == Ok(" where \"" + Render(Comparison(key, "=", v)) + " " + op + " ")
  {
    var w := Obj([(key, Str(v)), ("operator", Str(op))]);
    var opt := Obj([("where", w)]);
    assert Prop(opt, "where") == w;
    assert Prop(w, "operator") == Str(op);
    assert op != "" by {
      assert |Upper(op)| == |op|;
    }
    var es := VisitedEntries(w, op);
    assert es == [(key, Str(v)), ("operator", Str(op))];
    TrailingOperatorFold(key, v, op);
    var r := Render(Comparison(key, "=", v));
    ClauseFromFold(opt, optional, r + (" " + op + " "));
    Regroup3(" where \"", r, " ", op, " ");
  }

  /** Moving text between a value and the clause around it: a value holding
      `' AND <b> = '` renders like two comparisons joined by AND. */
  lemma Regroup(a: string, x: string, b: string, y: string)
    ensures Render(Comparison(a, "=", x + "' AND " + b + " = '" + y))
      == Render(Comparison(a, "=", x)) + " AND " + Render(Comparison(b, "=", y))
  {
    assert "'" + " AND " + b + " " + "=" + " '" == "' AND " + b + " = '";
    assert a + " " + "=" + " '" + (x + "' AND " + b + " = '" + y) + "'"
      == a + " " + "=" + " '" + x + ("' AND " + b + " = '") + y + "'";
  }

  lemma Bracket(p: string, a: string, m: string, b: string, q: string)
    ensures p + (a + m + b) + q == p + a + m + b + q
  {
  }

  /** Values are embedded without escaping, so one condition whose value
      holds quotes produces the same clause as two separate conditions, for
      instance `{a: "x' AND b = 'y"}` and `{a: 'x', b: 'y'}`: the clause
      cannot always be read back into the conditions it came from. */
  lemma UnescapedValueCollision(a: string, x: string, b: string, y: string)
    requires a != "operator" && b != "operator" && a != b && x != "" && y != ""
    ensures var one := Obj([("where", Obj([(a, Str(x + "' AND " + b + " = '" + y))]))]);
      var two := Obj([("where", Obj([(a, Str(x)), (b, Str(y))]))]);
      one != two && BuildWhereClause(one, false) == BuildWhereClause(two, false)
  {
    var v := x + "' AND " + b + " = '" + y;
    var one := Obj([("where", Obj([(a, Str(v))]))]);
    var two := Obj([("where", Obj([(a, Str(x)), (b, Str(y))]))]);
    var r1 := Render(Comparison(a, "=", x));
    var r2 := Render(Comparison(b, "=", y));
    SingleKeyClause(a, v, false);
    TwoKeyClause(a, x, b, y, false);
    Regroup(a, x, b, y);
    Bracket(" where \"", r1, " AND ", r2, "\" ");
    var w1: seq<(string, Value)> := [(a, Str(v))];
    var w2: seq<(string, Value)> := [(a, Str(x)), (b, Str(y))];
    assert |w1| != |w2|;
  }
}
