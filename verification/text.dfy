/** String primitives the library borrows from JavaScript: `split`, joining,
    `trim`, `toUpperCase`, substring search and the decimal form of a number.
 */
module Text {

  /** `parts.join(sep)`. */
  function JoinWith(parts: seq<string>, sep: string): string
  {
    if |parts| == 0 then ""
    else if |parts| == 1 then parts[0]
    else parts[0] + sep + JoinWith(parts[1..], sep)
  }

  /** The parts written one after another with no separator. */
  function Concat(parts: seq<string>): string
  {
    if |parts| == 0 then "" else parts[0] + Concat(parts[1..])
  }

  /** Every part followed by `sep`, the last one included. */
  function Terminated(parts: seq<string>, sep: string): string
  {
    if |parts| == 0 then "" else parts[0] + sep + Terminated(parts[1..], sep)
  }

  /** A join followed by one more separator is the terminated form. */
  lemma {:induction false} JoinThenSeparator(parts: seq<string>, sep: string)
    requires |parts| > 0
    ensures JoinWith(parts, sep) + sep == Terminated(parts, sep)
  {
    if |parts| > 1 {
      JoinThenSeparator(parts[1..], sep);
    }
  }

  /** Appending a part to a terminated list adds that part and one more
      separator. */
  lemma {:induction false} TerminatedAppend(parts: seq<string>, last: string, sep: string)
    ensures Terminated(parts + [last], sep) == Terminated(parts, sep) + last + sep
  {
    if |parts| > 0 {
      assert (parts + [last])[1..] == parts[1..] + [last];
      TerminatedAppend(parts[1..], last, sep);
    } else {
      assert [last][1..] == [];
    }
  }

  /** A terminated list followed by one more part is their join. */
  lemma {:induction false} TerminatedThenLast(parts: seq<string>, last: string, sep: string)
    ensures Terminated(parts, sep) + last == JoinWith(parts + [last], sep)
  {
    if |parts| > 0 {
      assert (parts + [last])[1..] == parts[1..] + [last];
      TerminatedThenLast(parts[1..], last, sep);
    }
  }

  lemma Associate(a: string, b: string, c: string)
    ensures a + (b + c) == a + b + c
  {
  }

  /** Joining a first part onto a non-empty list. */
  lemma JoinCons(first: string, rest: seq<string>, sep: string)
    requires |rest| > 0
    ensures JoinWith([first] + rest, sep) == first + sep + JoinWith(rest, sep)
  {
    assert ([first] + rest)[1..] == rest;
  }

  /** Terminating a first part and then a list. */
  lemma TerminatedCons(first: string, rest: seq<string>, sep: string)
    ensures Terminated([first] + rest, sep) == (first + sep) + Terminated(rest, sep)
  {
    assert ([first] + rest)[1..] == rest;
  }

  /** A join starts where its first part starts. */
  lemma JoinStarts(parts: seq<string>, sep: string)
    requires |parts| > 0 && |parts[0]| > 0
    ensures var j := JoinWith(parts, sep); |j| > 0 && j[0] == parts[0][0]
  {
    if |parts| > 1 {
      assert JoinWith(parts, sep) == parts[0] + (sep + JoinWith(parts[1..], sep));
    }
  }

  /** A join ends where its last part ends. */
  lemma {:induction false} JoinFinishes(parts: seq<string>, sep: string)
    requires |parts| > 0 && |parts[|parts| - 1]| > 0
    ensures var j := JoinWith(parts, sep); var last := parts[|parts| - 1];
      |j| > 0 && j[|j| - 1] == last[|last| - 1]
  {
    if |parts| > 1 {
      var rest := parts[1..];
      assert rest[|rest| - 1] == parts[|parts| - 1];
      JoinFinishes(rest, sep);
      assert JoinWith(parts, sep) == (parts[0] + sep) + JoinWith(rest, sep);
    }
  }

  lemma Associate4(a: string, b: string, c: string, d: string)
    ensures a + (b + (c + d)) == a + b + c + d
  {
  }

  /** Writing out the parts of a `split` joined by the separator gives back
      the original text: `s.split(c).join(c) === s`. */
  function Split(s: string, sep: char): (r: seq<string>)
    ensures |r| >= 1
    ensures forall i :: 0 <= i < |r| ==> sep !in r[i]
    ensures JoinWith(r, [sep]) == s
    decreases |s|
  {
    if |s| == 0 then [""]
    else
      var rest := Split(s[1..], sep);
      if s[0] == sep then
        assert s == [sep] + s[1..];
        [""] + rest
      else
        var head := [s[0]] + rest[0];
        assert forall i :: 1 <= i < |rest| ==> sep !in rest[i];
        assert JoinWith([head] + rest[1..], [sep]) == [s[0]] + JoinWith(rest, [sep]) by {
          if |rest| > 1 {
            assert ([head] + rest[1..])[1..] == rest[1..];
          }
        }
        assert s == [s[0]] + s[1..];
        [head] + rest[1..]
  }

  /** A piece without the separator followed by the separator splits off as
      one line. */
  lemma {:induction false} SplitAfterLine(line: string, sep: char, rest: string)
    requires sep !in line
    ensures Split(line + [sep] + rest, sep) == [line] + Split(rest, sep)
    decreases |line|
  {
    var s := line + [sep] + rest;
    if |line| == 0 {
      assert s[1..] == rest;
    } else {
      assert s[1..] == line[1..] + [sep] + rest;
      SplitAfterLine(line[1..], sep, rest);
      assert [line[0]] + line[1..] == line;
    }
  }

  /** A piece without the separator is a single line. */
  lemma {:induction false} SplitSingleLine(line: string, sep: char)
    requires sep !in line
    ensures Split(line, sep) == [line]
    decreases |line|
  {
    if |line| > 0 {
      SplitSingleLine(line[1..], sep);
      assert [line[0]] + line[1..] == line;
    }
  }

  /** `split` undoes `join` when no part contains the separator. */
  lemma {:induction false} SplitJoin(lines: seq<string>, sep: char)
    requires |lines| >= 1
    requires forall i :: 0 <= i < |lines| ==> sep !in lines[i]
    ensures Split(JoinWith(lines, [sep]), sep) == lines
  {
    if |lines| == 1 {
      SplitSingleLine(lines[0], sep);
    } else {
      SplitJoin(lines[1..], sep);
      SplitAfterLine(lines[0], sep, JoinWith(lines[1..], [sep]));
      assert lines[0] + [sep] + JoinWith(lines[1..], [sep]) == JoinWith(lines, [sep]);
      assert [lines[0]] + lines[1..] == lines;
    }
  }

  /** `s` with every occurrence of `c` removed. */
  function Remove(s: string, c: char): (r: string)
    ensures c !in r
  {
    if |s| == 0 then ""
    else if s[0] == c then Remove(s[1..], c)
    else [s[0]] + Remove(s[1..], c)
  }

  /** Writing the pieces of a `split` one after another, without the
      separator, removes the separator from the text. */
  lemma {:induction false} ConcatSplit(s: string, sep: char)
    ensures Concat(Split(s, sep)) == Remove(s, sep)
    decreases |s|
  {
    if |s| > 0 {
      ConcatSplit(s[1..], sep);
      var rest := Split(s[1..], sep);
      if s[0] != sep {
        var parts := Split(s, sep);
        assert parts[0] == [s[0]] + rest[0];
        assert parts[1..] == rest[1..];
        assert Concat(rest) == rest[0] + Concat(rest[1..]);
      }
    }
  }

  /** A character in none of the parts is not in their concatenation. */
  lemma {:induction false} ConcatAvoids(parts: seq<string>, c: char)
    requires forall i :: 0 <= i < |parts| ==> c !in parts[i]
    ensures c !in Concat(parts)
  {
    if |parts| > 0 {
      ConcatAvoids(parts[1..], c);
    }
  }

  /** Concatenation distributes over appending lists of parts. */
  lemma {:induction false} ConcatAppend(a: seq<string>, b: seq<string>)
    ensures Concat(a + b) == Concat(a) + Concat(b)
  {
    if |a| > 0 {
      assert (a + b)[1..] == a[1..] + b;
      ConcatAppend(a[1..], b);
    } else {
      assert a + b == b;
    }
  }

  /** The characters JavaScript's `trim` removes, restricted to this fixed
      set: space, tab, line feed, vertical tab, form feed, carriage return,
      no-break space, byte-order mark, line and paragraph separators. */
  predicate IsWhitespace(c: char)
  {
    c == ' ' || c == '\t' || c == '\n' || c == '\U{B}' || c == '\U{C}' || c == '\r'
    || c == '\U{A0}' || c == '\U{FEFF}' || c == '\U{2028}' || c == '\U{2029}'
  }

  /** Drops leading whitespace: the result is a suffix of `s`, everything
      dropped is whitespace, and the result does not start with whitespace. */
  function TrimStart(s: string): (r: string)
    ensures |r| <= |s| && r == s[|s| - |r|..]
    ensures forall i :: 0 <= i < |s| - |r| ==> IsWhitespace(s[i])
    ensures |r| > 0 ==> !IsWhitespace(r[0])
  {
    if |s| > 0 && IsWhitespace(s[0]) then TrimStart(s[1..]) else s
  }

  /** Drops trailing whitespace: the result is a prefix of `s`, everything
      dropped is whitespace, and the result does not end with whitespace. */
  function TrimEnd(s: string): (r: string)
    ensures |r| <= |s| && r == s[..|r|]
    ensures forall i :: |r| <= i < |s| ==> IsWhitespace(s[i])
    ensures |r| > 0 ==> !IsWhitespace(r[|r| - 1])
  {
    if |s| > 0 && IsWhitespace(s[|s| - 1]) then TrimEnd(s[..|s| - 1]) else s
  }

  /** `r` sits in `s` at offset `i` with only whitespace around it. */
  predicate TrimmedAt(s: string, r: string, i: int)
  {
    && 0 <= i <= |s| - |r|
    && r == s[i..i + |r|]
    && (forall k :: 0 <= k < i ==> IsWhitespace(s[k]))
    && (forall k :: i + |r| <= k < |s| ==> IsWhitespace(s[k]))
  }

  /** `s.trim()`: a contiguous piece of `s` with whitespace on neither end,
      all of whose surroundings in `s` are whitespace. */
  function Trim(s: string): (r: string)
    ensures exists i :: TrimmedAt(s, r, i)
    ensures |r| > 0 ==> !IsWhitespace(r[0]) && !IsWhitespace(r[|r| - 1])
  {
    var front := TrimStart(s);
    var r := TrimEnd(front);
    assert TrimmedAt(s, r, |s| - |front|);
    r
  }

  /** Text with a non-blank first and last character, surrounded by
      whitespace only, trims to itself. */
  lemma TrimSurrounded(before: string, t: string, after: string)
    requires forall k :: 0 <= k < |before| ==> IsWhitespace(before[k])
    requires forall k :: 0 <= k < |after| ==> IsWhitespace(after[k])
    requires |t| > 0 && !IsWhitespace(t[0]) && !IsWhitespace(t[|t| - 1])
    ensures Trim(before + t + after) == t
  {
    TrimStartSkips(before, t + after);
    assert before + t + after == before + (t + after);
    TrimEndSkips(t, after);
  }

  /** Leading whitespace before a non-blank character is exactly what
      `TrimStart` drops. */
  lemma {:induction false} TrimStartSkips(before: string, rest: string)
    requires forall k :: 0 <= k < |before| ==> IsWhitespace(before[k])
    requires |rest| > 0 && !IsWhitespace(rest[0])
    ensures TrimStart(before + rest) == rest
  {
    if |before| > 0 {
      assert (before + rest)[1..] == before[1..] + rest;
      TrimStartSkips(before[1..], rest);
    } else {
      assert before + rest == rest;
    }
  }

  /** Trailing whitespace after a non-blank character is exactly what
      `TrimEnd` drops. */
  lemma {:induction false} TrimEndSkips(rest: string, after: string)
    requires forall k :: 0 <= k < |after| ==> IsWhitespace(after[k])
    requires |rest| > 0 && !IsWhitespace(rest[|rest| - 1])
    ensures TrimEnd(rest + after) == rest
  {
    var s := rest + after;
    if |after| > 0 {
      var shorter := after[..|after| - 1];
      assert s[..|s| - 1] == rest + shorter;
      assert s[|s| - 1] == after[|after| - 1];
      TrimEndSkips(rest, shorter);
    } else {
      assert s == rest;
    }
  }

  /** Trimming only removes characters. */
  lemma TrimKeepsCharacters(s: string, c: char)
    requires c in Trim(s)
    ensures c in s
  {
    var i :| TrimmedAt(s, Trim(s), i);
    var k :| 0 <= k < |Trim(s)| && Trim(s)[k] == c;
    assert s[i + k] == c;
  }

  /** JavaScript's `toUpperCase` on one character, for the characters whose
      upper-case form is a single character among the letters compared
      against here: ASCII letters and the dotless i (U+0131), which becomes
      `I`. Every other character is returned unchanged. */
  function UpperChar(c: char): char
  {
    if 'a' <= c <= 'z' then (c as int - 32) as char
    else if c == '\U{131}' then 'I'
    else c
  }

  function Upper(s: string): (r: string)
    ensures |r| == |s|
    ensures forall i :: 0 <= i < |s| ==> r[i] == UpperChar(s[i])
  {
    seq(|s|, i requires 0 <= i < |s| => UpperChar(s[i]))
  }

  /** `s.substr(0, n)`. */
  function Take(s: string, n: nat): (r: string)
    ensures r == if |s| <= n then s else s[..n]
  {
    if |s| <= n then s else s[..n]
  }

  /** `t` occurs in `s` starting at index `i`. */
  predicate OccursAt(s: string, t: string, i: int)
  {
    0 <= i && i + |t| <= |s| && s[i..i + |t|] == t
  }

  /** `_.contains(s, t)` on strings: `t` occurs somewhere in `s`. */
  function Contains(s: string, t: string): (b: bool)
    ensures b <==> exists i :: OccursAt(s, t, i)
    decreases |s|
  {
    if |t| > |s| then false
    else if s[..|t|] == t then
      assert OccursAt(s, t, 0);
      true
    else
      var b := Contains(s[1..], t);
      if b then
        var i :| OccursAt(s[1..], t, i);
        assert OccursAt(s, t, i + 1);
        true
      else
        assert forall i :: OccursAt(s, t, i) ==> i >= 1 && OccursAt(s[1..], t, i - 1);
        false
  }

  function Digit(d: nat): (c: char)
    requires d < 10
    ensures '0' <= c <= '9'
  {
    ('0' as int + d) as char
  }

  /** The value of a decimal digit string, the reverse direction of
      `NatToString`. */
  function ParseDigits(s: string): nat
    requires forall i :: 0 <= i < |s| ==> '0' <= s[i] <= '9'
  {
    if |s| == 0 then 0
    else ParseDigits(s[..|s| - 1]) * 10 + (s[|s| - 1] as int - '0' as int)
  }

  /** `String(n)` for a non-negative integer: its decimal digits. */
  function NatToString(n: nat): (r: string)
    ensures |r| >= 1
    ensures forall i :: 0 <= i < |r| ==> '0' <= r[i] <= '9'
  {
    if n < 10 then [Digit(n)] else NatToString(n / 10) + [Digit(n % 10)]
  }

  /** The decimal form reads back as the number it was written from. */
  lemma {:induction false} NatToStringRoundTrip(n: nat)
    ensures ParseDigits(NatToString(n)) == n
  {
    var r := NatToString(n);
    if n >= 10 {
      NatToStringRoundTrip(n / 10);
      assert r[..|r| - 1] == NatToString(n / 10);
    } else {
      assert r[..0] == [];
    }
  }

  /** `String(i)` for an integer. */
  function IntToString(i: int): (r: string)
    ensures |r| >= 1
  {
    if i < 0 then "-" + NatToString(-i) else NatToString(i)
  }
}
