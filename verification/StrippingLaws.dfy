/** What stripping promises: line numbers stay, every marker goes, each test item goes whole, and
    stripping again changes nothing (scripts/panic-census.py:17-22, 110-116). */
module StrippingLaws {
  import opened MaskingLaws
  import opened RustMasking
  import opened TestItems
  import opened TextLines

  /** Every line is the original or empty. */
  ghost predicate OnlyBlanked(lines: seq<string>, kept: seq<string>) {
    |kept| == |lines| && forall k | 0 <= k < |lines| :: kept[k] == lines[k] || kept[k] == ""
  }

  ghost predicate NoMarkers(lines: seq<string>) {
    forall k | 0 <= k < |lines| :: !IsMarker(lines[k])
  }

  lemma EmptyIsNoMarker()
    ensures !IsMarker("")
  {
  }

  lemma {:induction false} StrippedOnlyBlanks(lines: seq<string>, pending: bool)
    ensures OnlyBlanked(lines, Stripped(lines, pending))
    ensures NoMarkers(Stripped(lines, pending))
    decreases |lines|
  {
    EmptyIsNoMarker();
    hide IsMarker, IsInBetween, BodyLen;
    if lines != [] {
      if IsMarker(lines[0]) || (pending && IsInBetween(lines[0])) {
        StrippedOnlyBlanks(lines[1..], true);
      } else if pending {
        StrippedOnlyBlanks(lines[BodyLen(lines)..], false);
      } else {
        StrippedOnlyBlanks(lines[1..], false);
      }
    }
  }

  lemma {:induction false} NothingToStrip(lines: seq<string>)
    requires NoMarkers(lines)
    ensures Stripped(lines, false) == lines
  {
    hide IsMarker, IsInBetween, BodyLen;
    if lines != [] {
      NothingToStrip(lines[1..]);
    }
  }

  /** Stripping what was stripped, from its text, gives the same lines. */
  lemma StrippingAgainChangesNothing(src: string)
    ensures Stripped(Split(Join(Stripped(Split(src), false))), false) == Stripped(Split(src), false)
  {
    var lines := Split(src);
    var kept := Stripped(lines, false);
    StrippedOnlyBlanks(lines, false);
    PiecesAreLines(src);
    hide Stripped, Split, NoMarkers;
    forall k | 0 <= k < |kept| ensures OneLine(kept[k]) {}
    SplitJoin(kept);
    NothingToStrip(kept);
  }

  // --- a test item goes whole ---------------------------------------------------------------------

  function TotalBalance(lines: seq<string>): int {
    if lines == [] then 0 else Balance(lines[0]) + TotalBalance(lines[1..])
  }

  /** The braces opened by the first line are closed again exactly at the last. */
  ghost predicate IsBraced(body: seq<string>) {
    && body != [] && '{' in Strip(body[0])
    && TotalBalance(body) <= 0
    && forall n | 0 < n < |body| :: TotalBalance(body[..n]) > 0
  }

  lemma {:induction false} ItemLenIs(body: seq<string>, rest: seq<string>, depth: int)
    requires body != [] && depth + TotalBalance(body) <= 0
    requires forall n | 0 < n < |body| :: depth + TotalBalance(body[..n]) > 0
    ensures ItemLen(body + rest, depth) == |body|
  {
    hide Balance;
    assert (body + rest)[1..] == body[1..] + rest;
    if |body| == 1 {
      assert TotalBalance(body) == Balance(body[0]) + TotalBalance([]);
    } else {
      var d := depth + Balance(body[0]);
      assert d > 0 by {
        assert body[..1][1..] == [] && TotalBalance(body[..1]) == Balance(body[0]) + TotalBalance([]);
      }
      forall n | 0 < n < |body[1..]| ensures d + TotalBalance(body[1..][..n]) > 0 {
        assert body[..n + 1][1..] == body[1..][..n];
        assert depth + TotalBalance(body[..n + 1]) > 0;
      }
      ItemLenIs(body[1..], rest, d);
    }
  }

  lemma EmptiesConcat(a: nat, b: nat, rest: seq<string>)
    ensures Empties(a) + (Empties(b) + rest) == Empties(a + b) + rest
  {
  }

  lemma BodyGoes(body: seq<string>, rest: seq<string>)
    requires IsBraced(body) && !IsMarker(body[0]) && !IsInBetween(body[0])
    ensures Stripped(body + rest, true) == Empties(|body|) + Stripped(rest, false)
  {
    var lines := body + rest;
    hide Stripped, Strip, IsMarker, IsInBetween;
    ItemLenIs(body, rest, 0);
    assert lines[0] == body[0];
    assert BodyLen(lines) == |body|;
    hide IsBraced, BodyLen;
    BodyLines(lines);
    assert lines[|body|..] == rest;
  }

  lemma AttributeGoes(attribute: string, lines: seq<string>, n: nat, rest: seq<string>)
    requires IsMarker(attribute) || IsInBetween(attribute)
    requires Stripped(lines, true) == Empties(n) + Stripped(rest, false)
    ensures Stripped([attribute] + lines, true) == Empties(n + 1) + Stripped(rest, false)
  {
    hide Stripped, IsMarker, IsInBetween;
    var all := [attribute] + lines;
    assert all[0] == attribute && all[1..] == lines;
    if IsMarker(attribute) { MarkerLine(all, true); } else { InBetweenLine(all); }
    EmptiesConcat(1, n, Stripped(rest, false));
    assert Empties(1) == [""];
  }

  lemma {:induction false} AttributesGo(attributes: seq<string>, body: seq<string>, rest: seq<string>)
    requires forall k | 0 <= k < |attributes| :: IsMarker(attributes[k]) || IsInBetween(attributes[k])
    requires IsBraced(body) && !IsMarker(body[0]) && !IsInBetween(body[0])
    ensures Stripped(attributes + body + rest, true) == Empties(|attributes| + |body|) + Stripped(rest, false)
  {
    hide Stripped, IsMarker, IsInBetween;
    if attributes == [] {
      assert attributes + body == body;
      BodyGoes(body, rest);
    } else {
      AttributesGo(attributes[1..], body, rest);
      hide IsBraced;
      assert attributes + body + rest == [attributes[0]] + (attributes[1..] + body + rest);
      AttributeGoes(attributes[0], attributes[1..] + body + rest, |attributes| - 1 + |body|, rest);
    }
  }

  /** A marker, the attributes behind it and the braced item they announce are blanked, and scanning
      goes on right behind the item. */
  lemma TestItemGoesWhole(marker: string, attributes: seq<string>, body: seq<string>, rest: seq<string>, pending: bool)
    requires IsMarker(marker)
    requires forall k | 0 <= k < |attributes| :: IsMarker(attributes[k]) || IsInBetween(attributes[k])
    requires IsBraced(body) && !IsMarker(body[0]) && !IsInBetween(body[0])
    ensures Stripped([marker] + attributes + body + rest, pending)
      == Empties(1 + |attributes| + |body|) + Stripped(rest, false)
  {
    hide *;
    AttributesGo(attributes, body, rest);
    var lines := [marker] + attributes + body + rest;
    assert lines[1..] == attributes + body + rest;
    MarkerLine(lines, pending);
    EmptiesConcat(1, |attributes| + |body|, Stripped(rest, false));
    assert Empties(1) == [""];
  }

  // --- the whole instrument -----------------------------------------------------------------------

  lemma {:induction false} SameLineLen(s: string, t: string)
    requires SameShape(s, t)
    ensures LineLen(s) == LineLen(t)
  {
    if s != "" && s[0] != '\n' {
      SameLineLen(s[1..], t[1..]);
    }
  }

  ghost predicate SameLines(a: seq<string>, b: seq<string>) {
    |a| == |b| && forall k | 0 <= k < |a| :: SameShape(a[k], b[k])
  }

  lemma {:induction false} SameShapeSameLines(s: string, t: string)
    requires SameShape(s, t)
    ensures SameLines(Split(s), Split(t))
  {
    hide *;
    SameLineLen(s, t);
    ShapeParts(s, t, LineLen(s));
    SplitOnce(s);
    SplitOnce(t);
    var n := LineLen(s);
    if n < |s| {
      SameShapeSameLines(s[n + 1..], t[n + 1..]);
      LinesOf(Split(s[n + 1..]), Split(t[n + 1..]));
      SameLinesMore(s[..n], t[..n], Split(s[n + 1..]), Split(t[n + 1..]));
    } else {
      SameLinesMore(s, t, [], []);
      assert [s] + [] == [s] && [t] + [] == [t];
    }
  }

  lemma LinesOf(a: seq<string>, b: seq<string>)
    requires SameLines(a, b)
    ensures |a| == |b| && forall k | 0 <= k < |a| :: SameShape(a[k], b[k])
  {
    hide SameShape;
  }

  lemma SplitOnce(s: string)
    ensures var n := LineLen(s); Split(s) == if n < |s| then [s[..n]] + Split(s[n + 1..]) else [s]
  {
    hide LineLen;
  }

  lemma ShapeParts(s: string, t: string, n: nat)
    requires SameShape(s, t) && n <= |s|
    ensures |s| == |t| && SameShape(s[..n], t[..n]) && (n < |s| ==> SameShape(s[n + 1..], t[n + 1..]))
  {
  }

  lemma SameLinesMore(x: string, y: string, a: seq<string>, b: seq<string>)
    requires SameShape(x, y) && |a| == |b| && forall k | 0 <= k < |a| :: SameShape(a[k], b[k])
    ensures SameLines([x] + a, [y] + b)
  {
    hide SameShape;
    forall k | 0 <= k <= |a| ensures SameShape(([x] + a)[k], ([y] + b)[k]) {
      if k > 0 { assert SameShape(a[k - 1], b[k - 1]); }
    }
  }

  /** Line n of the census's input is line n of the file: masked to the same shape, or empty, and never a
      test marker. */
  lemma CensusKeepsLineNumbers(text: string)
    ensures var original, masked := Split(text), Split(Masked(text)); var lines := Stripped(masked, false);
      SameLines(original, masked) && OnlyBlanked(masked, lines) && NoMarkers(lines)
  {
    MaskKeepsShape(text);
    SameShapeSameLines(text, Masked(text));
    StrippedOnlyBlanks(Split(Masked(text)), false);
    hide *;
  }
}
