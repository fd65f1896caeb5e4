/** Classification of the test runner's TAP output: every captured line is a
    passing line ("ok ..."), a failing line ("not ok ...") or something else. */
module Tap {
  import opened Text

  datatype LineKind = OkLine | NotOkLine | OtherLine

  /** No line starts with both "ok" and "not ok": they differ in the first character. */
  lemma PrefixesExclusive(line: string)
    ensures !(StartsWith(line, "ok") && StartsWith(line, "not ok"))
  {
    if StartsWith(line, "ok") {
      assert line[0] == 'o';
    }
  }

  /** The branch a line takes in the classification loop. The two prefixes
      exclude each other, so the order in which they are tested does not matter. */
  function Classify(line: string): (k: LineKind)
    ensures k == OkLine <==> StartsWith(line, "ok")
    ensures k == NotOkLine <==> StartsWith(line, "not ok")
    ensures k == OtherLine <==> !StartsWith(line, "ok") && !StartsWith(line, "not ok")
  {
    PrefixesExclusive(line);
    if StartsWith(line, "ok") then OkLine
    else if StartsWith(line, "not ok") then NotOkLine
    else OtherLine
  }

  /** The lines of kind `k`, in input order. */
  function Select(lines: seq<string>, k: LineKind): (r: seq<string>)
    ensures |r| <= |lines|
  {
    if lines == [] then []
    else (if Classify(lines[0]) == k then [lines[0]] else []) + Select(lines[1..], k)
  }

  /** A line is in the list of kind `k` exactly when it is an input line of that kind. */
  lemma {:induction false} SelectMembers(lines: seq<string>, k: LineKind)
    ensures forall l :: l in Select(lines, k) <==> l in lines && Classify(l) == k
  {
    if lines != [] {
      SelectMembers(lines[1..], k);
      assert lines == [lines[0]] + lines[1..];
    }
  }

  /** `a` is `b` with some elements left out, the rest kept in order. */
  predicate IsSubsequence(a: seq<string>, b: seq<string>)
    decreases |b|
  {
    a == [] || (b != [] && ((a[0] == b[0] && IsSubsequence(a[1..], b[1..])) || IsSubsequence(a, b[1..])))
  }

  /** `Select` of a list with a first line. */
  lemma SelectCons(line: string, rest: seq<string>, k: LineKind)
    ensures Select([line] + rest, k) == (if Classify(line) == k then [line] else []) + Select(rest, k)
  {
    assert ([line] + rest)[1..] == rest;
  }

  /** Selecting from a concatenation selects from each part, earlier part first:
      the relative order of the input is kept. */
  lemma {:induction false} SelectAppend(a: seq<string>, b: seq<string>, k: LineKind)
    ensures Select(a + b, k) == Select(a, k) + Select(b, k)
  {
    if a == [] {
      assert a + b == b;
    } else {
      var head, tail := a[0], a[1..];
      assert a == [head] + tail;
      assert a + b == [head] + (tail + b);
      SelectCons(head, tail + b, k);
      SelectCons(head, tail, k);
      SelectAppend(tail, b, k);
    }
  }

  /** Each of the three lists is a subsequence of the input. */
  lemma {:induction false} SelectIsSubsequence(lines: seq<string>, k: LineKind)
    ensures IsSubsequence(Select(lines, k), lines)
  {
    if lines != [] {
      SelectIsSubsequence(lines[1..], k);
      var r := Select(lines, k);
      if Classify(lines[0]) == k {
        assert r[0] == lines[0] && r[1..] == Select(lines[1..], k);
      } else {
        assert r == Select(lines[1..], k);
      }
    }
  }

  /** Selecting from a single line: the line is kept by its own kind only. */
  lemma {:induction false} SelectSnoc(lines: seq<string>, line: string, k: LineKind)
    ensures Select(lines + [line], k) == Select(lines, k) + (if Classify(line) == k then [line] else [])
  {
    SelectAppend(lines, [line], k);
    assert [line][1..] == [];
  }

  /** Every line lands in exactly one of the three lists: together they hold
      each input line as often as the input does. */
  lemma {:induction false} Partition(lines: seq<string>)
    ensures multiset(Select(lines, OkLine)) + multiset(Select(lines, NotOkLine)) + multiset(Select(lines, OtherLine))
         == multiset(lines)
  {
    if lines != [] {
      var n := |lines| - 1;
      var init, last := lines[..n], lines[n];
      assert lines == init + [last];
      Partition(init);
      SelectSnoc(init, last, OkLine);
      SelectSnoc(init, last, NotOkLine);
      SelectSnoc(init, last, OtherLine);
    }
  }

  /** Hence the three lengths add up to the number of input lines. */
  lemma PartitionLength(lines: seq<string>)
    ensures |Select(lines, OkLine)| + |Select(lines, NotOkLine)| + |Select(lines, OtherLine)| == |lines|
  {
    Partition(lines);
    var ok, notOk, other := Select(lines, OkLine), Select(lines, NotOkLine), Select(lines, OtherLine);
    assert |multiset(ok) + multiset(notOk) + multiset(other)| == |multiset(lines)|;
  }

  /** A failing TAP line such as "not ok 3 x" is never taken for a passing one. */
  lemma NotOkNeverOk(line: string)
    requires StartsWith(line, "not ok")
    ensures !StartsWith(line, "ok")
    ensures forall lines :: line !in Select(lines, OkLine)
    ensures forall lines :: line in lines ==> line in Select(lines, NotOkLine)
  {
    assert Classify(line) == NotOkLine;
    forall lines: seq<string> ensures line !in Select(lines, OkLine) && (line in lines ==> line in Select(lines, NotOkLine)) {
      SelectMembers(lines, OkLine);
      SelectMembers(lines, NotOkLine);
    }
  }

  /** The parsed output of one test run. */
  class MochaResult {
    var success: bool
    var lines: seq<string>
    var linesOk: seq<string>
    var linesNotOk: seq<string>
    var linesOther: seq<string>

    /** The three lists are the input lines split by kind. */
    ghost predicate Valid()
      reads this
    {
      linesOk == Select(lines, OkLine)
      && linesNotOk == Select(lines, NotOkLine)
      && linesOther == Select(lines, OtherLine)
    }

    constructor (success: bool, lines: seq<string>)
      ensures this.success == success && this.lines == lines
      ensures Valid()
    {
      this.success := success;
      this.lines := lines;
      linesOk, linesNotOk, linesOther := [], [], [];
      new;
      for i := 0 to |lines|
        invariant this.success == success && this.lines == lines
        invariant linesOk == Select(lines[..i], OkLine)
        invariant linesNotOk == Select(lines[..i], NotOkLine)
        invariant linesOther == Select(lines[..i], OtherLine)
      {
        var line := lines[i];
        assert lines[..i + 1] == lines[..i] + [line];
        SelectSnoc(lines[..i], line, OkLine);
        SelectSnoc(lines[..i], line, NotOkLine);
        SelectSnoc(lines[..i], line, OtherLine);
        if StartsWith(line, "ok") {
          linesOk := linesOk + [line];
        } else if StartsWith(line, "not ok") {
          linesNotOk := linesNotOk + [line];
        } else {
          linesOther := linesOther + [line];
        }
      }
      assert lines[..|lines|] == lines;
    }
  }
}
