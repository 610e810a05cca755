/** The census's stripper: every `#[cfg(test)]` item blanked, line by line
    (scripts/panic-census.py:110-147, 212-216). */
module TestItems {
  import opened RustMasking
  import opened TextLines

  // --- what a line is -----------------------------------------------------------------------------

  /** What `str.strip` removes. */
  predicate IsSpace(c: char) {
    || '\t' <= c <= '\r' || '\U{1C}' <= c <= '\U{20}' || c == '\U{85}' || c == '\U{A0}' || c == '\U{1680}'
    || '\U{2000}' <= c <= '\U{200A}' || c == '\U{2028}' || c == '\U{2029}' || c == '\U{202F}' || c == '\U{205F}'
    || c == '\U{3000}'
  }

  function LeftStripped(s: string): string {
    if s != "" && IsSpace(s[0]) then LeftStripped(s[1..]) else s
  }

  function RightStripped(s: string): string {
    if s != "" && IsSpace(s[|s| - 1]) then RightStripped(s[..|s| - 1]) else s
  }

  function Strip(s: string): string { RightStripped(LeftStripped(s)) }

  /** The line opens a test-only item. */
  predicate IsMarker(line: string) {
    var s := Strip(line);
    StartsWith(s, "#[cfg(test") || StartsWith(s, "#[cfg(all(test") || StartsWith(s, "#[cfg(any(test")
  }

  /** Between a marker and its item: further attributes, empty lines, comments. */
  predicate IsInBetween(line: string) {
    var s := Strip(line);
    StartsWith(s, "#[") || s == "" || StartsWith(s, "//")
  }

  function CountOf(s: string, c: char): nat {
    if s == "" then 0 else (if s[0] == c then 1 else 0) + CountOf(s[1..], c)
  }

  function Balance(line: string): int { CountOf(line, '{') - CountOf(line, '}') }

  /** How many lines an item takes: through the first line at which its braces are balanced again. */
  function ItemLen(lines: seq<string>, depth: int): (n: nat)
    ensures n <= |lines|
    ensures lines != [] ==> n > 0
  {
    if lines == [] then 0
    else if depth + Balance(lines[0]) <= 0 then 1
    else 1 + ItemLen(lines[1..], depth + Balance(lines[0]))
  }

  function Empties(n: nat): (r: seq<string>)
    ensures |r| == n && forall k | 0 <= k < n :: r[k] == ""
  {
    seq(n, k => "")
  }

  /** How many lines the item, or its one line, takes. */
  function BodyLen(lines: seq<string>): (n: nat)
    requires lines != []
    ensures 0 < n <= |lines|
  {
    if '{' in Strip(lines[0]) then ItemLen(lines, 0) else 1
  }

  /** The stripped lines; `pending` is whether a marker is waiting for its item. */
  function Stripped(lines: seq<string>, pending: bool): (r: seq<string>)
    ensures |r| == |lines|
    decreases |lines|
  {
    if lines == [] then []
    else if IsMarker(lines[0]) then [""] + Stripped(lines[1..], true)
    else if pending && IsInBetween(lines[0]) then [""] + Stripped(lines[1..], true)
    else if pending then Empties(BodyLen(lines)) + Stripped(lines[BodyLen(lines)..], false)
    else [lines[0]] + Stripped(lines[1..], false)
  }

  // --- the loop -----------------------------------------------------------------------------------

  /** What has been decided is final, and the rest is still to be looked at. */
  ghost predicate Progress(lines: seq<string>, i: nat, pending: bool, done: seq<string>, keep: seq<string>) {
    && i == |done| <= |lines|
    && keep == done + lines[i..]
    && Stripped(lines, false) == done + Stripped(lines[i..], pending)
  }

  lemma SplitBehind(done: seq<string>, rest: seq<string>, n: nat)
    requires n <= |rest|
    ensures (done + rest)[..|done|] == done
    ensures (done + rest)[|done| + n..] == rest[n..]
  {
  }

  lemma DropDrop(s: seq<string>, i: nat, n: nat)
    requires i + n <= |s|
    ensures s[i..][n..] == s[i + n..]
  {
  }

  lemma Regroup(a: seq<string>, b: seq<string>, c: seq<string>)
    ensures a + (b + c) == (a + b) + c
  {
  }

  lemma StepProgress(lines: seq<string>, i: nat, pending: bool, done: seq<string>, was: seq<string>, piece: seq<string>,
                     next: bool, keep: seq<string>)
    requires Progress(lines, i, pending, done, was) && i + |piece| <= |lines|
    requires Stripped(lines[i..], pending) == piece + Stripped(lines[i..][|piece|..], next)
    requires |was| >= i + |piece| && keep == was[..i] + piece + was[i + |piece|..]
    ensures Progress(lines, i + |piece|, next, done + piece, keep)
  {
    hide Stripped;
    DropDrop(lines, i, |piece|);
    SplitBehind(done, lines[i..], |piece|);
    Regroup(done, piece, Stripped(lines[i + |piece|..], next));
  }

  /** Blanks the lines of one item; `i` is where it starts, `end` where it ended. */
  method BlankItem(lines: seq<string>, before: seq<string>, i: nat) returns (keep: seq<string>, end: nat)
    requires i < |lines| == |before|
    ensures end == i + ItemLen(lines[i..], 0) <= |lines|
    ensures keep == before[..i] + Empties(end - i) + before[end..]
  {
    keep, end := before, i;
    var depth := 0;
    hide Balance;
    assert Empties(0) == [];
    while end < |lines|
      invariant i <= end <= |lines| == |keep|
      invariant end + ItemLen(lines[end..], depth) == i + ItemLen(lines[i..], 0)
      invariant keep == before[..i] + Empties(end - i) + before[end..]
    {
      assert lines[end..][1..] == lines[end + 1..];
      assert lines[end..][0] == lines[end];
      depth := depth + Balance(lines[end]);
      assert keep[end := ""] == before[..i] + Empties(end + 1 - i) + before[end + 1..];
      keep := keep[end := ""];
      end := end + 1;
      if depth <= 0 {
        break;
      }
    }
  }

  /** One line blanked or kept. */
  lemma LineStep(
    lines: seq<string>, i: nat, pending: bool, done: seq<string>, was: seq<string>, line: string, next: bool)
    requires Progress(lines, i, pending, done, was) && i < |lines|
    requires Stripped(lines[i..], pending) == [line] + Stripped(lines[i..][1..], next)
    ensures |was| == |lines| && Progress(lines, i + 1, next, done + [line], was[i := line])
  {
    assert |was| == |lines| by { hide Stripped; }
    assert was[i := line] == was[..i] + [line] + was[i + 1..];
    hide *;
    StepProgress(lines, i, pending, done, was, [line], next, was[i := line]);
  }

  lemma MarkerLine(rest: seq<string>, pending: bool)
    requires rest != [] && IsMarker(rest[0])
    ensures Stripped(rest, pending) == [""] + Stripped(rest[1..], true)
  {
    hide IsMarker, IsInBetween, BodyLen;
  }

  lemma InBetweenLine(rest: seq<string>)
    requires rest != [] && !IsMarker(rest[0]) && IsInBetween(rest[0])
    ensures Stripped(rest, true) == [""] + Stripped(rest[1..], true)
  {
    hide IsMarker, IsInBetween, BodyLen;
  }

  lemma BodyLines(rest: seq<string>)
    requires rest != [] && !IsMarker(rest[0]) && !IsInBetween(rest[0])
    ensures Stripped(rest, true) == Empties(BodyLen(rest)) + Stripped(rest[BodyLen(rest)..], false)
  {
    hide IsMarker, IsInBetween, BodyLen;
  }

  lemma CodeLine(rest: seq<string>)
    requires rest != [] && !IsMarker(rest[0])
    ensures Stripped(rest, false) == [rest[0]] + Stripped(rest[1..], false)
  {
    hide IsMarker, IsInBetween, BodyLen;
  }

  lemma Started(lines: seq<string>)
    ensures Progress(lines, 0, false, [], lines)
  {
    assert lines[0..] == lines;
    hide Stripped;
  }

  lemma Finished(lines: seq<string>, pending: bool, done: seq<string>, keep: seq<string>)
    requires Progress(lines, |lines|, pending, done, keep)
    ensures keep == Stripped(lines, false)
  {
    assert lines[|lines|..] == [];
    assert Stripped([], pending) == [];
    hide Stripped;
  }

  lemma KeepsLength(lines: seq<string>, i: nat, pending: bool, done: seq<string>, keep: seq<string>)
    requires Progress(lines, i, pending, done, keep)
    ensures |keep| == |lines| && i <= |lines| && (i < |lines| ==> lines[i..][0] == lines[i] == keep[i])
  {
    hide Stripped;
  }

  method StripTestItems(src: string) returns (keep: seq<string>)
    ensures keep == Stripped(Split(src), false)
  {
    hide *;
    var lines := Split(src);
    keep := lines;
    var i, pending := 0, false;
    ghost var done: seq<string> := [];
    Started(lines);
    while i < |lines|
      invariant Progress(lines, i, pending, done, keep) && i <= |lines|
      decreases |lines| - i
    {
      KeepsLength(lines, i, pending, done, keep);
      if IsMarker(lines[i]) {
        MarkerLine(lines[i..], pending);
        LineStep(lines, i, pending, done, keep, "", true);
        keep := keep[i := ""];
        done := done + [""];
        pending := true;
        i := i + 1;
        continue;
      }
      if pending {
        if IsInBetween(lines[i]) {
          InBetweenLine(lines[i..]);
          LineStep(lines, i, pending, done, keep, "", true);
          keep := keep[i := ""];
          done := done + [""];
          i := i + 1;
          continue;
        }
        BodyLines(lines[i..]);
        ghost var was, start := keep, i;
        if '{' in Strip(lines[i]) {
          keep, i := BlankItem(lines, keep, i);
        } else {
          keep := keep[i := ""];
          i := i + 1;
        }
        BodyStep(lines, start, done, was, i, keep);
        done := done + Empties(i - start);
        pending := false;
        continue;
      }
      CodeLine(lines[i..]);
      LineStep(lines, i, pending, done, keep, lines[i], false);
      done := done + [lines[i]];
      assert keep[i := lines[i]] == keep;
      i := i + 1;
    }
    Finished(lines, pending, done, keep);
  }

  /** A whole item blanked. */
  lemma BodyStep(lines: seq<string>, i: nat, done: seq<string>, was: seq<string>, end: nat, keep: seq<string>)
    requires Progress(lines, i, true, done, was) && i < |lines| == |was|
    requires Stripped(lines[i..], true)
      == Empties(BodyLen(lines[i..])) + Stripped(lines[i..][BodyLen(lines[i..])..], false)
    requires if '{' in Strip(lines[i])
             then end == i + ItemLen(lines[i..], 0) <= |lines| && keep == was[..i] + Empties(end - i) + was[end..]
             else end == i + 1 && keep == was[i := ""]
    ensures i <= end <= |lines|
    ensures Progress(lines, end, false, done + Empties(end - i), keep)
  {
    hide Stripped, ItemLen, Progress, IsSpace, Strip;
    var n := BodyLen(lines[i..]);
    assert lines[i..][0] == lines[i];
    assert end == i + n;
    if n == 1 { assert Empties(1) == [""]; }
    assert keep == was[..i] + Empties(n) + was[i + n..];
    StepProgress(lines, i, true, done, was, Empties(n), false, keep);
  }
}
