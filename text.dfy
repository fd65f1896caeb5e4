/** The string helpers the plugin relies on: Python's `str.startswith` and
    `str.splitlines`, the latter restricted to "\n" as the only line separator. */
module Text {

  /** `s.startswith(prefix)`. */
  predicate StartsWith(s: string, prefix: string)
  {
    |prefix| <= |s| && s[..|prefix|] == prefix
  }

  /** A prefix agrees with the text character by character. */
  lemma StartsWithAt(s: string, prefix: string)
    ensures StartsWith(s, prefix) <==> |prefix| <= |s| && forall i :: 0 <= i < |prefix| ==> s[i] == prefix[i]
  {
    if |prefix| <= |s| && forall i :: 0 <= i < |prefix| ==> s[i] == prefix[i] {
      assert s[..|prefix|] == prefix;
    }
  }

  /** A single line: no line separator inside. */
  predicate NoNewline(s: string)
  {
    '\n' !in s
  }

  /** Length of the first line of `s`: the index of the first "\n", or |s| if there is none. */
  function LineEnd(s: string): (n: nat)
    ensures n <= |s|
    ensures NoNewline(s[..n])
    ensures n < |s| ==> s[n] == '\n'
  {
    if s == [] || s[0] == '\n' then 0
    else
      var n := 1 + LineEnd(s[1..]);
      assert s[..n] == [s[0]] + s[1..][..n - 1];
      n
  }

  /** `s.splitlines()` with "\n" as the only separator: a final "\n" does not
      open an empty last line, and the empty text has no lines. */
  function SplitLines(s: string): (lines: seq<string>)
    ensures lines == [] <==> s == []
    ensures |lines| <= |s|
    decreases |s|
  {
    if s == [] then []
    else
      var n := LineEnd(s);
      if n == |s| then [s] else [s[..n]] + SplitLines(s[n + 1..])
  }

  /** Each line followed by "\n", in order. */
  function JoinLines(lines: seq<string>): (s: string)
    ensures s == [] <==> lines == []
    ensures s != [] ==> s[|s| - 1] == '\n'
  {
    if lines == [] then [] else lines[0] + "\n" + JoinLines(lines[1..])
  }

  /** Appending a line to the list appends it, with its "\n", to the text. */
  lemma {:induction false} JoinLinesSnoc(lines: seq<string>, line: string)
    ensures JoinLines(lines + [line]) == JoinLines(lines) + line + "\n"
  {
    if lines == [] {
      assert lines + [line] == [line];
    } else {
      assert (lines + [line])[1..] == lines[1..] + [line];
      JoinLinesSnoc(lines[1..], line);
    }
  }

  /** No line that `SplitLines` produces holds a separator. */
  lemma {:induction false} SplitLinesNoNewline(s: string)
    ensures forall l :: l in SplitLines(s) ==> NoNewline(l)
    decreases |s|
  {
    if s != [] {
      var n := LineEnd(s);
      if n < |s| {
        SplitLinesNoNewline(s[n + 1..]);
      }
    }
  }

  /** The first line of `l + "\n" + rest` is `l` when `l` holds no separator. */
  lemma {:induction false} LineEndJoined(l: string, rest: string)
    requires NoNewline(l)
    ensures LineEnd(l + "\n" + rest) == |l|
  {
    if l != [] {
      assert (l + "\n" + rest)[1..] == l[1..] + "\n" + rest;
      assert l[0] in l;
      assert forall c :: c in l[1..] ==> c in l;
      LineEndJoined(l[1..], rest);
    }
  }

  /** Joining separator-free lines and splitting the text again gives the lines back. */
  lemma {:induction false} SplitJoin(lines: seq<string>)
    requires forall l :: l in lines ==> NoNewline(l)
    ensures SplitLines(JoinLines(lines)) == lines
  {
    if lines != [] {
      var l := lines[0];
      var rest := JoinLines(lines[1..]);
      var s := JoinLines(lines);
      assert s == l + "\n" + rest;
      LineEndJoined(l, rest);
      assert s[..|l|] == l;
      assert s[|l| + 1..] == rest;
      assert forall x :: x in lines[1..] ==> x in lines;
      SplitJoin(lines[1..]);
    }
  }

  /** A text ended by "\n": `s` itself if it is empty or already ends in "\n",
      otherwise `s + "\n"`. */
  function Terminated(s: string): (t: string)
    ensures t != [] ==> t[|t| - 1] == '\n'
  {
    if s != [] && s[|s| - 1] != '\n' then s + "\n" else s
  }

  /** Terminating a text whose first line is `line` terminates its remainder. */
  lemma TerminatedCons(line: string, t: string)
    ensures Terminated(line + "\n" + t) == line + "\n" + Terminated(t)
  {
    var s := line + "\n" + t;
    if t == [] {
      assert s[|s| - 1] == '\n';
    } else {
      assert s[|s| - 1] == t[|t| - 1];
    }
  }

  /** `JoinLines` of a list with a first line. */
  lemma JoinLinesCons(line: string, rest: seq<string>)
    ensures JoinLines([line] + rest) == line + "\n" + JoinLines(rest)
  {
    assert ([line] + rest)[1..] == rest;
  }

  /** Splitting a text and joining the lines again gives the text back, with a
      "\n" added when its last line was not terminated. */
  lemma {:induction false} JoinSplit(s: string)
    ensures JoinLines(SplitLines(s)) == Terminated(s)
    decreases |s|
  {
    if s != [] {
      var n := LineEnd(s);
      if n == |s| {
        assert s[..n] == s && s[|s| - 1] in s[..n];
        JoinLinesCons(s, []);
      } else {
        var line, t := s[..n], s[n + 1..];
        assert s == line + "\n" + t;
        JoinLinesCons(line, SplitLines(t));
        JoinSplit(t);
        TerminatedCons(line, t);
      }
    }
  }
}
