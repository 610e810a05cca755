/** What the stripper takes for a marker, for a line between a marker and its item, and for the end of an item;
    and what it makes of lines of code with test items among them (scripts/panic-census.py:110-147). */
module TestItemLaws {
  import opened RustMasking
  import opened StrippingLaws
  import opened TestItems

  /** The code points `str.strip` removes. */
  predicate White(c: char) {
    c as int in {
      0x09, 0x0A, 0x0B, 0x0C, 0x0D, 0x1C, 0x1D, 0x1E, 0x1F, 0x20, 0x85, 0xA0, 0x1680, 0x2000, 0x2001, 0x2002, 0x2003,
      0x2004, 0x2005, 0x2006, 0x2007, 0x2008, 0x2009, 0x200A, 0x2028, 0x2029, 0x202F, 0x205F, 0x3000}
  }

  predicate AllWhite(s: string) {
    forall k | 0 <= k < |s| :: White(s[k])
  }

  /** Behind nothing but white space the line says this. */
  ghost predicate Opens(line: string, p: string) {
    exists j: nat :: j <= |line| && AllWhite(line[..j]) && StartsWith(line[j..], p)
  }

  lemma SpaceIs(c: char)
    ensures IsSpace(c) <==> White(c)
  {
  }

  lemma {:induction false} LeftStrippedIs(s: string)
    ensures var t := LeftStripped(s); var j := |s| - |t|;
      j >= 0 && t == s[j..] && AllWhite(s[..j]) && (t != "" ==> !White(t[0]))
  {
    if s != "" { SpaceIs(s[0]); }
    hide IsSpace, White;
    if s != "" && IsSpace(s[0]) {
      LeftStrippedIs(s[1..]);
      var j := |s| - |LeftStripped(s)|;
      assert s[..j] == [s[0]] + s[1..][..j - 1];
    }
  }

  lemma {:induction false} RightStrippedIs(s: string)
    ensures var t := RightStripped(s);
      |t| <= |s| && t == s[..|t|] && AllWhite(s[|t|..]) && (t != "" ==> !White(t[|t| - 1]))
  {
    if s != "" { SpaceIs(s[|s| - 1]); }
    hide IsSpace, White;
    if s != "" && IsSpace(s[|s| - 1]) {
      RightStrippedIs(s[..|s| - 1]);
      var n := |RightStripped(s)|;
      assert s[n..] == s[..|s| - 1][n..] + [s[|s| - 1]];
    }
  }

  lemma WhiteAt(s: string, a: nat, b: nat)
    requires a <= b <= |s| && AllWhite(s[a..b])
    ensures forall k | a <= k < b :: White(s[k])
  {
    forall k | a <= k < b ensures White(s[k]) { assert s[a..b][k - a] == s[k]; }
  }

  /** Something without white space at its ends opens the stripped line exactly when it opens the line. */
  lemma StripOpens(line: string, p: string)
    requires p != "" && !White(p[0]) && !White(p[|p| - 1])
    ensures StartsWith(Strip(line), p) <==> Opens(line, p)
  {
    hide IsSpace, White, LeftStripped, RightStripped;
    LeftStrippedIs(line);
    var t := LeftStripped(line);
    var j := |line| - |t|;
    RightStrippedIs(t);
    var n := |RightStripped(t)|;
    if StartsWith(Strip(line), p) { assert StartsWith(line[j..], p); }
    WhiteAt(line, 0, j);
    WhiteAt(t, n, |t|);
    if k: nat :| k <= |line| && AllWhite(line[..k]) && StartsWith(line[k..], p) {
      WhiteAt(line, 0, k);
      assert line[k] == p[0] && t[0] == line[j];
      assert j == k;
      assert t[|p| - 1] == p[|p| - 1];
      assert |p| <= n;
      assert RightStripped(t)[..|p|] == t[..|p|];
    }
  }

  /** A line is a marker exactly when it opens with one of the three attributes. */
  lemma MarkerIs(line: string)
    ensures IsMarker(line)
      <==> Opens(line, "#[cfg(test") || Opens(line, "#[cfg(all(test") || Opens(line, "#[cfg(any(test")
  {
    hide Strip, Opens;
    StripOpens(line, "#[cfg(test");
    StripOpens(line, "#[cfg(all(test");
    StripOpens(line, "#[cfg(any(test");
  }

  /** Between a marker and its item stand white lines, attributes and line comments. */
  lemma InBetweenIs(line: string)
    ensures IsInBetween(line) <==> AllWhite(line) || Opens(line, "#[") || Opens(line, "//")
  {
    StripOpens(line, "#[");
    StripOpens(line, "//");
    WhiteIs(line);
    hide Strip, Opens, AllWhite;
  }

  lemma WhiteIs(line: string)
    ensures Strip(line) == "" <==> AllWhite(line)
  {
    hide IsSpace, White, LeftStripped, RightStripped;
    LeftStrippedIs(line);
    var t := LeftStripped(line);
    RightStrippedIs(t);
    var j := |line| - |t|;
    assert line == line[..j] + t;
    if Strip(line) == "" { assert t[0..] == t; }
    assert forall k | 0 <= k < |t| :: t[k] == line[j + k];
  }

  lemma BraceIsNotWhite()
    ensures !White('{')
  {
  }

  /** An item has a block when its first line opens one. */
  lemma BraceIs(line: string)
    ensures '{' in Strip(line) <==> '{' in line
  {
    hide IsSpace, White, LeftStripped, RightStripped;
    LeftStrippedIs(line);
    var t := LeftStripped(line);
    RightStrippedIs(t);
    var j, n := |line| - |t|, |RightStripped(t)|;
    WhiteAt(line, 0, j);
    WhiteAt(t, n, |t|);
    BraceIsNotWhite();
    if '{' in line {
      var k :| 0 <= k < |line| && line[k] == '{';
      assert k >= j && t[k - j] == '{';
      assert Strip(line)[k - j] == '{';
    }
  }

  lemma {:induction false} CountIs(s: string, c: char)
    ensures CountOf(s, c) == multiset(s)[c]
  {
    if s != "" {
      CountIs(s[1..], c);
      assert s == [s[0]] + s[1..];
    }
  }

  /** A line's balance is its opening braces less its closing ones. */
  lemma BalanceIs(line: string)
    ensures Balance(line) + multiset(line)['}'] == multiset(line)['{']
  {
    CountIs(line, '{');
    CountIs(line, '}');
  }

  // --- code with test items among it ----------------------------------------------------------------

  ghost predicate Marks(line: string) {
    Opens(line, "#[cfg(test") || Opens(line, "#[cfg(all(test") || Opens(line, "#[cfg(any(test")
  }

  ghost predicate StandsBetween(line: string) {
    AllWhite(line) || Opens(line, "#[") || Opens(line, "//")
  }

  /** How many braces these lines leave open. */
  function LeftOpen(lines: seq<string>): int {
    if lines == [] then 0
    else (multiset(lines[0])['{'] as int) - (multiset(lines[0])['}'] as int) + LeftOpen(lines[1..])
  }

  /** The item is its one line, or runs through the first line at which its braces are closed again. */
  ghost predicate IsBody(body: seq<string>) {
    && body != [] && !Marks(body[0]) && !StandsBetween(body[0])
    && if '{' in body[0]
       then LeftOpen(body) <= 0 && forall n | 0 < n < |body| :: LeftOpen(body[..n]) > 0
       else |body| == 1
  }

  /** The file runs out before the item's braces are closed. */
  ghost predicate IsCutOff(body: seq<string>) {
    && body != [] && !Marks(body[0]) && !StandsBetween(body[0])
    && '{' in body[0] && forall n | 0 < n <= |body| :: LeftOpen(body[..n]) > 0
  }

  datatype Piece = Code(line: string) | Test(marker: string, between: seq<string>, body: seq<string>)

  ghost predicate WellMade(p: Piece) {
    match p
    case Code(line) => !Marks(line)
    case Test(marker, between, body) =>
      Marks(marker) && IsBody(body) && forall l | l in between :: Marks(l) || StandsBetween(l)
  }

  function LinesOfPiece(p: Piece): seq<string> {
    match p
    case Code(line) => [line]
    case Test(marker, between, body) => [marker] + between + body
  }

  function Source(pieces: seq<Piece>): seq<string> {
    if pieces == [] then [] else LinesOfPiece(pieces[0]) + Source(pieces[1..])
  }

  /** What is left of a piece. */
  function KeptOf(p: Piece): seq<string> {
    match p
    case Code(line) => [line]
    case Test(_, between, body) => Empties(1 + |between| + |body|)
  }

  /** The code lines in their places, and an empty line for every other. */
  function CodeOnly(pieces: seq<Piece>): seq<string> {
    if pieces == [] then [] else KeptOf(pieces[0]) + CodeOnly(pieces[1..])
  }

  lemma MarksIff(line: string)
    ensures Marks(line) <==> IsMarker(line)
    ensures StandsBetween(line) <==> IsInBetween(line)
  {
    hide IsMarker, IsInBetween, Opens, AllWhite;
    MarkerIs(line);
    InBetweenIs(line);
  }

  lemma {:induction false} LeftOpenIs(lines: seq<string>)
    ensures LeftOpen(lines) == TotalBalance(lines)
  {
    hide Balance;
    if lines != [] {
      BalanceIs(lines[0]);
      LeftOpenIs(lines[1..]);
    }
  }

  lemma BodyIs(body: seq<string>, rest: seq<string>)
    requires IsBody(body)
    ensures Stripped(body + rest, true) == Empties(|body|) + Stripped(rest, false)
  {
    hide Stripped, Strip, IsMarker, IsInBetween, Marks, StandsBetween, TotalBalance, LeftOpen, Balance;
    MarksIff(body[0]);
    BraceIs(body[0]);
    if '{' in body[0] {
      LeftOpenIs(body);
      forall n | 0 < n < |body| ensures TotalBalance(body[..n]) > 0 { LeftOpenIs(body[..n]); }
      assert IsBraced(body);
      hide IsBody;
      BodyGoes(body, rest);
    } else {
      var lines := body + rest;
      assert lines[0] == body[0] && lines[1..] == rest && BodyLen(lines) == 1;
      hide IsBody, BodyLen;
      BodyLines(lines);
    }
  }

  lemma {:induction false} BetweenGo(between: seq<string>, lines: seq<string>, n: nat, rest: seq<string>)
    requires forall l | l in between :: Marks(l) || StandsBetween(l)
    requires Stripped(lines, true) == Empties(n) + Stripped(rest, false)
    ensures Stripped(between + lines, true) == Empties(|between| + n) + Stripped(rest, false)
  {
    hide Stripped, IsMarker, IsInBetween, Marks, StandsBetween;
    if between == [] {
      assert between + lines == lines;
    } else {
      assert between[0] in between;
      BetweenGo(between[1..], lines, n, rest);
      MarksIff(between[0]);
      assert between + lines == [between[0]] + (between[1..] + lines);
      AttributeGoes(between[0], between[1..] + lines, |between| - 1 + n, rest);
    }
  }

  lemma TestGoes(marker: string, between: seq<string>, body: seq<string>, rest: seq<string>)
    requires WellMade(Test(marker, between, body))
    ensures Stripped([marker] + between + body + rest, false)
      == Empties(1 + |between| + |body|) + Stripped(rest, false)
  {
    hide Stripped, IsMarker, IsInBetween, Marks, StandsBetween, IsBody;
    MarksIff(marker);
    BodyIs(body, rest);
    BetweenGo(between, body + rest, |body|, rest);
    var lines := [marker] + between + body + rest;
    assert lines[0] == marker && lines[1..] == between + (body + rest);
    MarkerLine(lines, false);
    EmptiesConcat(1, |between| + |body|, Stripped(rest, false));
    assert Empties(1) == [""];
  }

  lemma FirstPiece(pieces: seq<Piece>, tail: seq<string>)
    requires pieces != []
    ensures Source(pieces) + tail == LinesOfPiece(pieces[0]) + (Source(pieces[1..]) + tail)
  {
    hide LinesOfPiece;
  }

  lemma FirstKept(pieces: seq<Piece>, rest: seq<string>)
    requires pieces != []
    ensures CodeOnly(pieces) + rest == KeptOf(pieces[0]) + (CodeOnly(pieces[1..]) + rest)
  {
    hide KeptOf;
  }

  lemma NoPieces(tail: seq<string>)
    ensures Source([]) + tail == tail && CodeOnly([]) + Stripped(tail, false) == Stripped(tail, false)
  {
    hide Stripped;
  }

  /** Main result: of lines of code with test items among them, stripping leaves every line of code in its
      place and empties every line of every item. */
  lemma {:induction false} StripKeepsExactlyTheCode(pieces: seq<Piece>, tail: seq<string>)
    requires forall p | p in pieces :: WellMade(p)
    ensures Stripped(Source(pieces) + tail, false) == CodeOnly(pieces) + Stripped(tail, false)
  {
    hide *;
    if pieces == [] {
      NoPieces(tail);
    } else {
      assert pieces[0] in pieces;
      StripKeepsExactlyTheCode(pieces[1..], tail);
      FirstPiece(pieces, tail);
      FirstKept(pieces, Stripped(tail, false));
      PieceStripped(pieces[0], Source(pieces[1..]) + tail);
    }
  }

  lemma PieceStripped(p: Piece, rest: seq<string>)
    requires WellMade(p)
    ensures Stripped(LinesOfPiece(p) + rest, false)
      == KeptOf(p) + Stripped(rest, false)
  {
    hide Stripped, IsMarker, Marks, StandsBetween, IsBody;
    match p
    case Code(line) =>
      MarksIff(line);
      assert ([line] + rest)[0] == line && ([line] + rest)[1..] == rest;
      CodeLine([line] + rest);
    case Test(marker, between, body) =>
      TestGoes(marker, between, body, rest);
  }

  /** A marker at the end with no item behind it goes with what stands below it. */
  lemma {:induction false} LoneMarkerGoes(marker: string, between: seq<string>, pending: bool)
    requires Marks(marker) && forall l | l in between :: Marks(l) || StandsBetween(l)
    ensures Stripped([marker] + between, pending) == Empties(1 + |between|)
  {
    NothingLeft();
    assert Empties(0) + Stripped([], false) == [];
    hide Stripped, IsMarker, IsInBetween, Marks, StandsBetween;
    assert Stripped([], true) == Empties(0) + Stripped([], false);
    BetweenGo(between, [], 0, []);
    MarksIff(marker);
    assert between + [] == between && ([marker] + between)[1..] == between;
    MarkerLine([marker] + between, pending);
    EmptiesConcat(1, |between|, []);
    assert Empties(1) == [""] && Empties(|between|) + [] == Empties(|between|);
    assert Empties(1 + |between|) + [] == Empties(1 + |between|);
  }

  lemma NothingLeft()
    ensures Stripped([], false) == [] && Stripped([], true) == []
  {
  }

  lemma {:induction false} CutOffLen(lines: seq<string>, depth: int)
    requires forall n | 0 < n <= |lines| :: depth + LeftOpen(lines[..n]) > 0
    ensures ItemLen(lines, depth) == |lines|
  {
    hide Balance;
    if lines != [] {
      BalanceIs(lines[0]);
      assert lines[..1][1..] == [] && LeftOpen(lines[..1]) == Balance(lines[0]) + LeftOpen([]);
      var d := depth + Balance(lines[0]);
      forall n | 0 < n <= |lines[1..]| ensures d + LeftOpen(lines[1..][..n]) > 0 {
        assert lines[..n + 1][1..] == lines[1..][..n];
      }
      CutOffLen(lines[1..], d);
    }
  }

  /** An item the file runs out on is emptied to the end. */
  lemma CutOffGoes(body: seq<string>)
    requires IsCutOff(body)
    ensures Stripped(body, true) == Empties(|body|)
  {
    hide Stripped, Strip, IsMarker, IsInBetween, Marks, StandsBetween, LeftOpen, ItemLen;
    MarksIff(body[0]);
    BraceIs(body[0]);
    CutOffLen(body, 0);
    assert BodyLen(body) == |body|;
    hide BodyLen;
    BodyLines(body);
    NothingLeft();
    assert body[|body|..] == [] && Empties(|body|) + [] == Empties(|body|);
  }
}
