/** Text cut into lines at its newlines. */
module TextLines {

  /** Up to, not including, the next newline. */
  function LineLen(s: string): (n: nat)
    ensures n <= |s|
  {
    if s == "" || s[0] == '\n' then 0 else 1 + LineLen(s[1..])
  }

  /** The pieces between newlines; there is always at least one. */
  function Split(s: string): (lines: seq<string>)
    ensures lines != []
  {
    var n := LineLen(s);
    if n < |s| then [s[..n]] + Split(s[n + 1..]) else [s]
  }

  function Join(lines: seq<string>): string
    requires lines != []
  {
    if |lines| == 1 then lines[0] else lines[0] + "\n" + Join(lines[1..])
  }

  predicate OneLine(s: string) { forall k | 0 <= k < |s| :: s[k] != '\n' }

  lemma {:induction false} LineLenOf(line: string, rest: string)
    requires OneLine(line) && (rest == "" || rest[0] == '\n')
    ensures LineLen(line + rest) == |line|
  {
    if line == "" {
      assert line + rest == rest;
    } else {
      assert (line + rest)[1..] == line[1..] + rest;
      LineLenOf(line[1..], rest);
    }
  }

  lemma SplitHead(line: string, tail: string)
    requires OneLine(line)
    ensures Split(line + "\n" + tail) == [line] + Split(tail)
  {
    var s, rest := line + "\n" + tail, "\n" + tail;
    assert s == line + rest;
    LineLenOf(line, rest);
    hide OneLine, LineLen;
    assert s[..|line|] == line && s[|line| + 1..] == tail;
  }

  /** Lines joined and split again are the lines. */
  lemma {:induction false} SplitJoin(lines: seq<string>)
    requires lines != [] && forall k | 0 <= k < |lines| :: OneLine(lines[k])
    ensures Split(Join(lines)) == lines
  {
    hide OneLine;
    if |lines| == 1 {
      LineLenOf(lines[0], "");
      assert lines[0] + "" == lines[0];
      assert lines == [lines[0]];
    } else {
      SplitHead(lines[0], Join(lines[1..]));
      SplitJoin(lines[1..]);
      hide Split;
    }
  }

  lemma {:induction false} LineLenStops(s: string)
    ensures OneLine(s[..LineLen(s)])
    ensures LineLen(s) < |s| ==> s[LineLen(s)] == '\n'
  {
    if s != "" && s[0] != '\n' {
      LineLenStops(s[1..]);
      var n := LineLen(s[1..]);
      assert s[1..][..n] == s[1..1 + n];
      forall k | 0 <= k < 1 + n ensures s[k] != '\n' {
        if k > 0 { assert s[1..][..n][k - 1] == s[k]; }
      }
    }
  }

  lemma {:induction false} PiecesAreLines(s: string)
    ensures forall k | 0 <= k < |Split(s)| :: OneLine(Split(s)[k])
  {
    LineLenStops(s);
    var n := LineLen(s);
    hide OneLine, LineLen;
    if n < |s| {
      PiecesAreLines(s[n + 1..]);
    } else {
      assert s[..n] == s;
    }
  }

  /** The pieces, joined again, are the text. */
  lemma {:induction false} JoinSplit(s: string)
    ensures Join(Split(s)) == s
    decreases |s|
  {
    var n := LineLen(s);
    if n < |s| {
      LineLenStops(s);
      JoinSplit(s[n + 1..]);
      var rest := Split(s[n + 1..]);
      hide Split, LineLen, OneLine;
      assert ([s[..n]] + rest)[1..] == rest;
      assert s == s[..n] + "\n" + s[n + 1..];
    }
  }
}
