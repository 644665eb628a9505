/** The GET-clause builder (`buildGetClause`, lib/ms-wmic.js:78-116).

    The source walks `opt.get` with `_.each`. A non-string element reports an
    error, but its `return` only ends that element's iteration, so the walk
    goes on and may report more errors and finally a success. A caller sees
    the first report, which `BuildGetClause` returns; `EachCallbacks` lists
    every report in order.
 */
module GetClause {
  import opened Outcomes
  import opened JsValues
  import opened Text

  function IndexError(i: nat): Error
  {
    Error(RangeError, "get array value at index " + NatToString(i) + " was not a string")
  }

  predicate AllStrings(items: seq<Value>)
  {
    forall i :: 0 <= i < |items| ==> items[i].Str?
  }

  function Strings(items: seq<Value>): (r: seq<string>)
    requires AllStrings(items)
    ensures |r| == |items|
    ensures forall i :: 0 <= i < |items| ==> r[i] == items[i].s
  {
    seq(|items|, i requires 0 <= i < |items| => items[i].s)
  }

  /** The index of the first element that is not a string. */
  function FirstNonString(items: seq<Value>): (k: nat)
    requires !AllStrings(items)
    ensures k < |items| && !items[k].Str?
    ensures forall j :: 0 <= j < k ==> items[j].Str?
  {
    if !items[0].Str? then 0
    else
      assert !AllStrings(items[1..]) by {
        var i :| 0 <= i < |items| && !items[i].Str?;
        assert !items[1..][i - 1].Str?;
      }
      1 + FirstNonString(items[1..])
  }

  /** The number of elements that are not strings. */
  function NonStrings(items: seq<Value>): (n: nat)
    ensures n <= |items|
    ensures n == 0 <==> AllStrings(items)
  {
    if |items| == 0 then 0
    else
      assert AllStrings(items) <==> items[0].Str? && AllStrings(items[1..]) by {
        if items[0].Str? && AllStrings(items[1..]) {
          forall i | 0 <= i < |items| ensures items[i].Str? {
            if i > 0 {
              assert items[i] == items[1..][i - 1];
            }
          }
        }
      }
      (if items[0].Str? then 0 else 1) + NonStrings(items[1..])
  }

  /** What the builder promises: the fields joined by commas between
      ` get ` and a space, or an error naming the first non-string index. */
  function ExpectedGet(items: seq<Value>): Result<string>
  {
    if AllStrings(items) then Ok(" get " + JoinWith(Strings(items), ",") + " ")
    else Err(IndexError(FirstNonString(items)))
  }

  /** The `_.each` walk from index `i` up to its first report, `clause`
      being the text built so far. */
  function FirstReport(items: seq<Value>, i: nat, clause: string): (r: Result<string>)
    requires i < |items|
    ensures r.Err? ==> r.error.kind == RangeError
    ensures r.Ok? ==> |r.value| > |clause| && r.value[..|clause|] == clause && r.value[|r.value| - 1] == ' '
    decreases |items| - i
  {
    if !items[i].Str? then Err(IndexError(i))
    else if i < |items| - 1 then
      var next := clause + items[i].s + ",";
      var r := FirstReport(items, i + 1, next);
      assert r.Ok? ==> r.value[..|clause|] == r.value[..|next|][..|clause|];
      r
    else Ok(clause + items[i].s + " ")
  }

  /** With only strings from `i` on, the walk appends them joined by commas. */
  lemma {:induction false} FirstReportJoins(items: seq<Value>, i: nat, clause: string)
    requires i < |items|
    requires forall j :: i <= j < |items| ==> items[j].Str?
    ensures AllStrings(items[i..])
    ensures FirstReport(items, i, clause) == Ok(clause + JoinWith(Strings(items[i..]), ",") + " ")
    decreases |items| - i
  {
    var rest := items[i..];
    if i < |items| - 1 {
      FirstReportJoins(items, i + 1, clause + items[i].s + ",");
      assert items[i + 1..] == rest[1..];
      var tail := JoinWith(Strings(items[i + 1..]), ",");
      assert Strings(rest)[1..] == Strings(items[i + 1..]);
      assert JoinWith(Strings(rest), ",") == items[i].s + "," + tail;
      assert clause + items[i].s + "," + tail + " " == clause + (items[i].s + "," + tail) + " ";
    } else {
      assert Strings(rest) == [items[i].s];
    }
  }

  /** The walk reports the first non-string element it meets. */
  lemma {:induction false} FirstReportStops(items: seq<Value>, i: nat, clause: string, k: nat)
    requires i <= k < |items| && !items[k].Str?
    requires forall j :: i <= j < k ==> items[j].Str?
    ensures FirstReport(items, i, clause) == Err(IndexError(k))
    decreases |items| - i
  {
    if i < k {
      FirstReportStops(items, i + 1, clause + items[i].s + ",", k);
    }
  }

  /** The options carry a non-empty `get` array. */
  predicate HasFields(opt: Value)
  {
    IsObject(opt) && Prop(opt, "get").Arr? && |Prop(opt, "get").items| > 0
  }

  /** `buildGetClause(opt, cb)`, as the first `(err, clause)` pair the
      callback receives. */
  function BuildGetClause(opt: Value): (r: Result<string>)
    ensures HasFields(opt) ==> r == ExpectedGet(Prop(opt, "get").items)
    ensures !IsObject(opt) ==> r == Err(Error(TypeError, "opt must be an object"))
    ensures IsObject(opt) && !Prop(opt, "get").Arr? ==> r == Err(Error(TypeError, "get property must be an array"))
    ensures IsObject(opt) && Prop(opt, "get") == Arr([]) ==> r == Err(Error(RangeError, "get array was empty"))
    ensures r.Ok? ==> |r.value| >= 6 && r.value[..5] == " get " && r.value[|r.value| - 1] == ' '
  {
    if !IsObject(opt) then Err(Error(TypeError, "opt must be an object"))
    else
      var get := Prop(opt, "get");
      if !get.Arr? then Err(Error(TypeError, "get property must be an array"))
      else if |get.items| == 0 then Err(Error(RangeError, "get array was empty"))
      else
        FirstOutcome(get.items);
        ExpectedGetFrame(get.items);
        FirstReport(get.items, 0, " get ")
  }

  /** Every report the `_.each` walk makes from index `i` on, `clause`
      being the text built so far: an error for each non-string element
      (which appends nothing, not even the comma), and a success after the
      last element when it is a string. */
  function Reports(items: seq<Value>, i: nat, clause: string): (r: seq<Result<string>>)
    requires i <= |items|
    ensures |r| <= |items| - i
    ensures forall k :: 0 <= k < |r| - 1 ==> r[k].Err?
    decreases |items| - i
  {
    if i == |items| then []
    else if !items[i].Str? then [Err(IndexError(i))] + Reports(items, i + 1, clause)
    else if i < |items| - 1 then Reports(items, i + 1, clause + items[i].s + ",")
    else [Ok(clause + items[i].s + " ")]
  }

  /** The first report of the walk is the one `FirstReport` describes. */
  lemma {:induction false} ReportsStartWithFirst(items: seq<Value>, i: nat, clause: string)
    requires i < |items|
    ensures |Reports(items, i, clause)| > 0
    ensures Reports(items, i, clause)[0] == FirstReport(items, i, clause)
    decreases |items| - i
  {
    if items[i].Str? && i < |items| - 1 {
      ReportsStartWithFirst(items, i + 1, clause + items[i].s + ",");
    }
  }

  /** One report per non-string element, plus one success when the last
      element is a string; only the last report can be a success. */
  lemma {:induction false} ReportsCount(items: seq<Value>, i: nat, clause: string)
    requires i < |items|
    ensures var r := Reports(items, i, clause);
      |r| == NonStrings(items[i..]) + (if items[|items| - 1].Str? then 1 else 0)
    ensures var r := Reports(items, i, clause);
      forall k :: 0 <= k < |r| - 1 ==> r[k].Err?
    decreases |items| - i
  {
    var rest := items[i..];
    assert rest[1..] == items[i + 1..];
    if i < |items| - 1 {
      var next := if items[i].Str? then clause + items[i].s + "," else clause;
      ReportsCount(items, i + 1, next);
      assert rest[0] == items[i];
    } else {
      assert items[i + 1..] == [];
    }
  }

  /** A GET clause opens with ` get ` and ends with a space. */
  lemma ExpectedGetFrame(items: seq<Value>)
    ensures ExpectedGet(items).Ok? ==>
      var g := ExpectedGet(items).value;
      |g| >= 6 && g[..5] == " get " && g[|g| - 1] == ' '
  {
    if AllStrings(items) {
      var j := JoinWith(Strings(items), ",");
      assert (" get " + j + " ")[..5] == " get ";
    }
  }

  /** The walk's first report is what `ExpectedGet` promises. */
  lemma FirstOutcome(items: seq<Value>)
    requires |items| > 0
    ensures FirstReport(items, 0, " get ") == ExpectedGet(items)
  {
    if AllStrings(items) {
      FirstReportJoins(items, 0, " get ");
      assert items[0..] == items;
    } else {
      FirstReportStops(items, 0, " get ", FirstNonString(items));
    }
  }

  /** Every report `_.each` makes, in order: one error per non-string
      element, and a success after the last element when it is a string.
      The first report is the builder's outcome. */
  method EachCallbacks(items: seq<Value>) returns (calls: seq<Result<string>>)
    requires |items| > 0
    ensures calls == Reports(items, 0, " get ")
    ensures |calls| == NonStrings(items) + (if items[|items| - 1].Str? then 1 else 0)
    ensures calls[0] == ExpectedGet(items)
    ensures forall k :: 0 <= k < |calls| - 1 ==> calls[k].Err?
  {
    var clause := " get ";
    calls := [];
    var i := 0;
    while i < |items|
      invariant 0 <= i <= |items|
      invariant calls + Reports(items, i, clause) == Reports(items, 0, " get ")
    {
      var x := items[i];
      if !x.Str? {
        assert calls + Reports(items, i, clause) == (calls + [Err(IndexError(i))]) + Reports(items, i + 1, clause);
        calls := calls + [Err(IndexError(i))];
      } else if i < |items| - 1 {
        clause := clause + x.s + ",";
      } else {
        calls := calls + [Ok(clause + x.s + " ")];
        clause := clause + x.s + " ";
      }
      i := i + 1;
    }
    ReportsStartWithFirst(items, 0, " get ");
    ReportsCount(items, 0, " get ");
    assert items[0..] == items;
    FirstOutcome(items);
  }

  /** Two string fields, for instance `get: ['Name', 'ProcessId']`, give
      ` get Name,ProcessId `. */
  lemma TwoFieldClause(a: string, b: string)
    ensures BuildGetClause(Obj([("get", Arr([Str(a), Str(b)]))])) == Ok(" get " + a + "," + b + " ")
  {
    var items := [Str(a), Str(b)];
    assert Prop(Obj([("get", Arr(items))]), "get") == Arr(items);
    assert AllStrings(items);
    assert Strings(items) == [a, b];
    assert [a, b][1..] == [b];
    assert JoinWith([a, b], ",") == a + "," + b;
    assert BuildGetClause(Obj([("get", Arr(items))])) == Ok(" get " + (a + "," + b) + " ");
    assert " get " + (a + "," + b) + " " == " get " + a + "," + b + " ";
  }
}
