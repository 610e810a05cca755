/** What printing and parsing prompt patches promise: the round trip in both directions, the
    accounting behind the caps, and idempotence (packages/axiom-core/src/version.ts). */
module PatchRoundTrip {
  import opened PromptPatches

  // --- the matches tile the prompt from its first header to its end -----------------------------

  lemma ConcatCons(m: string, ms: seq<string>)
    ensures Concat([m] + ms) == m + Concat(ms)
  {
    assert ([m] + ms)[1..] == ms;
  }

  lemma SplitTwice(s: string, i: nat, a: nat, e: nat)
    requires i <= a <= e <= |s|
    ensures s[i..] == s[i..a] + (s[a..e] + s[e..])
  {
  }

  lemma {:induction false} MatchesTile(s: string, i: nat)
    requires i <= |s|
    ensures s[i..] == s[i..NextHeader(s, i)] + Concat(Matches(s, i))
    ensures CutMatches(s, i) == s[i..NextHeader(s, i)]
    decreases |s| - i
  {
    var a := NextHeader(s, i);
    if a < |s| {
      var e := NextHeader(s, HeaderEnd(s, a));
      assert NextHeader(s, e) == e;
      MatchesTile(s, e);
      assert s[e..e] == "";
      assert CutMatches(s, i) == s[i..a] + CutMatches(s, e);
      ConcatCons(s[a..e], Matches(s, e));
      assert s[e..] == Concat(Matches(s, e));
      SplitTwice(s, i, a, e);
    }
  }

  lemma PatchCharsIsTail(s: string)
    ensures PatchChars(s) == |s| - NextHeader(s, 0)
    ensures UnmarkedChars(s) == s[..NextHeader(s, 0)]
  {
    MatchesTile(s, 0);
    assert s[0..] == s;
  }

  // --- one match and the patch it stands for ----------------------------------------------------

  /** A header followed by text without a further header. */
  predicate IsMatch(m: string) {
    HeaderAt(m, 0) && NextHeader(m, HeaderEnd(m, 0)) == |m|
  }

  lemma SliceIsMatch(s: string, a: nat)
    requires HeaderAt(s, a)
    ensures var e := NextHeader(s, HeaderEnd(s, a)); IsMatch(s[a..e])
  {
    var h := HeaderEnd(s, a);
    var e := NextHeader(s, h);
    var m := s[a..e];
    assert s == s[..a] + s[a..];
    HeaderShift(s[..a], s[a..], 0);
    assert s[a..] == m + s[e..];
    HeaderInPrefix(m, s[e..], 0);
    HeaderPrefix(m, s[e..], 0);
    forall k | h - a <= k < |m| ensures !HeaderAt(m, k) {
      if HeaderAt(m, k) {
        HeaderPrefix(m, s[e..], k);
        HeaderShift(s[..a], s[a..], k);
      }
    }
    NextHeaderUnique(m, h - a, |m|);
  }

  lemma {:induction false} MatchesAreMatches(s: string, i: nat)
    requires i <= |s|
    ensures forall m | m in Matches(s, i) :: IsMatch(m)
    decreases |s| - i
  {
    var a := NextHeader(s, i);
    if a < |s| {
      var e := NextHeader(s, HeaderEnd(s, a));
      SliceIsMatch(s, a);
      MatchesAreMatches(s, e);
    }
  }

  lemma IndexOfUnique(s: string, pat: string, r: nat)
    requires HasAt(s, r, pat) && forall k: nat | k < r :: !HasAt(s, k, pat)
    ensures IndexOf(s, pat) == r
  {
  }

  /** The first "]\n" of a match closes its header. */
  lemma MatchClose(m: string)
    requires HeaderAt(m, 0)
    ensures DropLeadingBlankLine(m) == m[2..]
    ensures IndexOf(m[2..], "]\n") == HeaderEnd(m, 0) - 4
  {
    var h := HeaderEnd(m, 0);
    HeaderShape(m, 0);
    hide HeaderAt, HeaderEnd, IndexOf;
    assert m[..2] == "\n\n";
    var inner := m[2..];
    var r := h - 4;
    assert inner[r..r + 2] == "]\n";
    forall k: nat | k < r ensures !HasAt(inner, k, "]\n") {
      assert m[k + 3] != '\n';
      assert k + 2 <= |inner| ==> inner[k..k + 2][1] == inner[k + 1] == m[k + 3];
    }
    IndexOfUnique(inner, "]\n", r);
  }

  lemma MatchMarker(m: string)
    requires HeaderAt(m, 0)
    ensures WellFormedMarker(m[3..HeaderEnd(m, 0) - 2])
  {
    var j := IdRun(m, 9);
    var marker := m[3..j];
    assert m[0..9] == HEADER_OPEN;
    assert marker[0..6] == m[0..9][3..];
    assert HEADER_OPEN[3..] == "axiom:";
  }

  /** Parsing a match loses nothing: printing the result gives the match back. */
  lemma ParseMatchPrints(m: string)
    requires IsMatch(m)
    ensures |ParseMatch(m)| == 1
    ensures var p := ParseMatch(m)[0]; Print(p) == m && WellFormedMarker(p.marker) && NoHeader(p.text)
  {
    var h := HeaderEnd(m, 0);
    HeaderShape(m, 0);
    MatchMarker(m);
    MatchClose(m);
    var p := PatchBlock(m[3..h - 2], m[h..]);
    ParseSlices(m, h);
    PrintSlices(m, h);
    assert m == m[..h] + p.text;
    NextHeaderShift(m[..h], p.text, 0);
    hide HeaderAt, HeaderEnd, WellFormedMarker, IndexOf, DropLeadingBlankLine, Print;
  }

  lemma ParseSlices(m: string, h: nat)
    requires 6 <= h <= |m| && DropLeadingBlankLine(m) == m[2..] && IndexOf(m[2..], "]\n") == h - 4
    ensures ParseMatch(m) == [PatchBlock(m[3..h - 2], m[h..])]
  {
    hide DropLeadingBlankLine, IndexOf;
    assert m[2..][1..h - 4] == m[3..h - 2] && m[2..][h - 2..] == m[h..];
  }

  lemma PrintSlices(m: string, h: nat)
    requires 6 <= h <= |m| && m[..3] == "\n\n[" && m[h - 2..h] == "]\n"
    ensures Print(PatchBlock(m[3..h - 2], m[h..])) == m
  {
    assert m == m[..3] + m[3..h - 2] + m[h - 2..h] + m[h..];
  }

  lemma ParseMatchesSnoc(ms: seq<string>, m: string)
    requires IsMatch(m)
    ensures |ParseMatch(m)| == 1
    ensures ParseMatches(ms + [m]) == ParseMatches(ms) + [ParseMatch(m)[0]]
    ensures Print(ParseMatch(m)[0]) == m
  {
    ParseMatchPrints(m);
    assert (ms + [m])[..|ms|] == ms;
  }

  lemma {:induction false} ParsePrints(ms: seq<string>)
    requires forall m | m in ms :: IsMatch(m)
    ensures |ParseMatches(ms)| == |ms|
    ensures forall k | 0 <= k < |ms| :: Print(ParseMatches(ms)[k]) == ms[k]
  {
    hide Print, ParseMatch, IsMatch;
    if ms != [] {
      var n := |ms| - 1;
      ParsePrints(ms[..n]);
      assert ms == ms[..n] + [ms[n]];
      ParseMatchesSnoc(ms[..n], ms[n]);
    }
  }

  lemma {:induction false} PrintAllIsConcat(ps: seq<PatchBlock>, ms: seq<string>)
    requires |ps| == |ms| && forall k | 0 <= k < |ms| :: Print(ps[k]) == ms[k]
    ensures PrintAll(ps) == Concat(ms)
  {
    if ms != [] {
      PrintAllIsConcat(ps[1..], ms[1..]);
      assert PrintAll(ps) == Print(ps[0]) + PrintAll(ps[1..]);
    }
  }

  lemma {:induction false} ParseWellFormed(ms: seq<string>)
    requires forall m | m in ms :: IsMatch(m)
    ensures forall p | p in ParseMatches(ms) :: WellFormedMarker(p.marker) && NoHeader(p.text)
  {
    if ms != [] {
      var n := |ms| - 1;
      ParseWellFormed(ms[..n]);
      ParseMatchPrints(ms[n]);
    }
  }

  /** Main result, for every prompt: the unmarked part followed by the printed patches is the prompt. */
  lemma PrintAfterParse(s: string)
    ensures s == UnmarkedChars(s) + PrintAll(Parse(s))
    ensures |Parse(s)| == CountPatches(s)
    ensures forall p | p in Parse(s) :: WellFormedMarker(p.marker) && NoHeader(p.text)
  {
    MatchesTile(s, 0);
    MatchesAreMatches(s, 0);
    ParsePrints(Matches(s, 0));
    ParseWellFormed(Matches(s, 0));
    PrintAllIsConcat(Parse(s), Matches(s, 0));
    assert s[0..] == s;
  }

  // --- appending one block ----------------------------------------------------------------------

  lemma SeamScan(s: string, b: string, i: nat)
    requires HeaderAt(b, 0) && i <= |s| && NextHeader(s, i) == |s|
    ensures NextHeader(s + b, i) == |s| <==> !DanglesFrom(s, i)
  {
    var u := s + b;
    HeaderShift(s, b, 0);
    if DanglesFrom(s, i) {
      var d :| i <= d < |s| && DanglesAt(s, d);
      SeamHeader(s, b, d);
    } else {
      forall k | i <= k < |s| ensures !HeaderAt(u, k) { SeamHeader(s, b, k); }
      NextHeaderUnique(u, i, |s|);
    }
  }

  lemma FirstMatch(u: string, a: nat, f: nat)
    requires HeaderAt(u, a) && NextHeader(u, HeaderEnd(u, a)) == f
    ensures Matches(u, a) == [u[a..f]] + Matches(u, f)
    ensures Matches(u, a) == [u[a..]] <==> f == |u|
  {
    assert NextHeader(u, a) == a;
    assert Matches(u, |u|) == [];
    hide HeaderAt, HeaderEnd, NextHeader;
    assert Matches(u, a)[0] == u[a..f];
    assert |u[a..f]| == f - a && |u[a..]| == |u| - a;
    assert u[a..|u|] == u[a..];
  }

  lemma SeamMatches(s: string, b: string)
    requires HeaderAt(b, 0)
    ensures Matches(s + b, |s|) == [b] <==> IsMatch(b)
  {
    var h := HeaderEnd(b, 0);
    HeaderShift(s, b, 0);
    NextHeaderShift(s, b, h);
    FirstMatch(s + b, |s|, |s| + NextHeader(b, h));
    assert (s + b)[|s|..] == b;
  }

  lemma ConsEqual(m: string, ms: seq<string>, ns: seq<string>, b: string)
    ensures [m] + ms == ([m] + ns) + [b] <==> ms == ns + [b]
  {
    assert ([m] + ns) + [b] == [m] + (ns + [b]);
    assert ([m] + ms)[1..] == ms;
    assert ([m] + (ns + [b]))[1..] == ns + [b];
  }

  /** The scan sees the base's matches and then the new block exactly when no header dangles off
      the base's tail and the new block holds no second header. */
  lemma {:induction false} AppendMatches(s: string, b: string, i: nat)
    requires HeaderAt(b, 0) && i <= |s|
    ensures Matches(s + b, i) == Matches(s, i) + [b] <==> !DanglesFrom(s, TailStart(s, i)) && IsMatch(b)
    decreases |s| - i
  {
    var a := NextHeader(s, i);
    SeamMatches(s, b);
    if a == |s| {
      SeamScan(s, b, i);
      AppendWithoutHeader(s, b, i);
    } else {
      NextHeaderPrefix(s, b, i);
      HeaderPrefix(s, b, a);
      var h := HeaderEnd(s, a);
      if NextHeader(s, h) < |s| {
        AppendBeforeHeader(s, b, i);
        AppendMatches(s, b, NextHeader(s, h));
      } else {
        SeamScan(s, b, h);
        AppendToLastMatch(s, b, i);
      }
    }
  }

  lemma AppendBeforeHeader(s: string, b: string, i: nat)
    requires HeaderAt(b, 0) && i <= |s| && NextHeader(s, i) < |s|
    requires var h := HeaderEnd(s, NextHeader(s, i)); NextHeader(s, h) < |s|
    ensures var e := NextHeader(s, HeaderEnd(s, NextHeader(s, i)));
      && TailStart(s, i) == TailStart(s, e)
      && (Matches(s + b, i) == Matches(s, i) + [b] <==> Matches(s + b, e) == Matches(s, e) + [b])
  {
    var u := s + b;
    var a := NextHeader(s, i);
    NextHeaderPrefix(s, b, i);
    HeaderPrefix(s, b, a);
    var h := HeaderEnd(s, a);
    NextHeaderPrefix(s, b, h);
    var e := NextHeader(s, h);
    assert NextHeader(s, e) == e;
    assert u[a..e] == s[a..e];
    ConsEqual(s[a..e], Matches(u, e), Matches(s, e), b);
  }

  lemma AppendToLastMatch(s: string, b: string, i: nat)
    requires HeaderAt(b, 0) && i <= |s| && NextHeader(s, i) < |s|
    requires var h := HeaderEnd(s, NextHeader(s, i)); NextHeader(s, h) == |s|
    ensures var h := HeaderEnd(s, NextHeader(s, i));
      && TailStart(s, i) == h
      && (Matches(s + b, i) == Matches(s, i) + [b]
          <==> NextHeader(s + b, h) == |s| && Matches(s + b, |s|) == [b])
  {
    var u := s + b;
    var a := NextHeader(s, i);
    NextHeaderPrefix(s, b, i);
    HeaderPrefix(s, b, a);
    var h := HeaderEnd(s, a);
    var f := NextHeader(u, h);
    assert Matches(s, |s|) == [];
    assert Matches(s, i) == [s[a..|s|]];
    assert Matches(u, i) == [u[a..f]] + Matches(u, f);
    if f == |s| {
      assert u[a..f] == s[a..|s|];
      ConsEqual(s[a..|s|], Matches(u, f), [], b);
      assert [s[a..|s|]] + [] == [s[a..|s|]];
      assert [] + [b] == [b];
    } else {
      assert |u[a..f]| == f - a && |s[a..|s|]| == |s| - a;
      assert Matches(u, i)[0] == u[a..f] && (Matches(s, i) + [b])[0] == s[a..|s|];
    }
  }

  lemma AppendWithoutHeader(s: string, b: string, i: nat)
    requires HeaderAt(b, 0) && i <= |s| && NextHeader(s, i) == |s|
    ensures Matches(s + b, i) == Matches(s, i) + [b]
       <==> NextHeader(s + b, i) == |s| && Matches(s + b, |s|) == [b]
  {
    var u := s + b;
    var c := NextHeader(u, i);
    assert Matches(s, i) + [b] == [b];
    assert NextHeader(u, c) == c;
    assert Matches(u, i) == Matches(u, c);
    if Matches(u, i) == [b] {
      MatchesTile(u, c);
      ConcatCons(b, []);
      assert [b] + [] == [b];
      assert |u[c..]| == |b|;
    }
  }

  lemma PrintIsMatch(p: PatchBlock)
    requires WellFormedMarker(p.marker)
    ensures IsMatch(Print(p)) <==> NoHeader(p.text)
  {
    PrintIsHeader(p);
    var b := Print(p);
    var h := |p.marker| + 5;
    assert b == b[..h] + p.text;
    NextHeaderShift(b[..h], p.text, 0);
  }

  lemma PrintInjective(p: PatchBlock, q: PatchBlock)
    requires WellFormedMarker(p.marker) && WellFormedMarker(q.marker) && Print(p) == Print(q)
    ensures p == q
  {
    PrintIsHeader(p);
    PrintIsHeader(q);
    assert Print(p)[3..|p.marker| + 3] == p.marker;
    assert Print(q)[3..|q.marker| + 3] == q.marker;
  }

  lemma {:induction false} PrintsInjective(ps: seq<PatchBlock>, qs: seq<PatchBlock>)
    requires |ps| == |qs|
    requires forall k | 0 <= k < |ps| :: WellFormedMarker(ps[k].marker) && WellFormedMarker(qs[k].marker)
    requires forall k | 0 <= k < |ps| :: Print(ps[k]) == Print(qs[k])
    ensures ps == qs
  {
    forall k | 0 <= k < |ps| ensures ps[k] == qs[k] { PrintInjective(ps[k], qs[k]); }
  }

  /** Main result: appending one patch is parsed back as exactly that patch after the old ones if and
      only if the base does not dangle and the text embeds no header. */
  lemma AppendRoundTrip(s: string, p: PatchBlock)
    requires WellFormedMarker(p.marker)
    ensures Parse(s + Print(p)) == Parse(s) + [p] <==> !Dangling(s) && NoHeader(p.text)
  {
    var b := Print(p);
    var u := s + b;
    PrintIsHeader(p);
    PrintIsMatch(p);
    AppendMatches(s, b, 0);
    AppendParses(Matches(s, 0), Matches(u, 0), p) by {
      MatchesAreMatches(s, 0);
      MatchesAreMatches(u, 0);
    }
  }

  lemma AppendParses(ms: seq<string>, ns: seq<string>, p: PatchBlock)
    requires WellFormedMarker(p.marker)
    requires (forall m | m in ms :: IsMatch(m)) && (forall m | m in ns :: IsMatch(m))
    ensures ParseMatches(ns) == ParseMatches(ms) + [p] <==> ns == ms + [Print(p)]
  {
    hide *;
    ParsePrints(ms);
    ParsePrints(ns);
    var ps, qs := ParseMatches(ms) + [p], ParseMatches(ns);
    SnocPrints(ParseMatches(ms), ms, p);
    if ns == ms + [Print(p)] {
      ParseWellFormed(ms);
      ParseWellFormed(ns);
      PrintsInjective(qs, ps);
    } else if qs == ps {
      SamePrints(ps, ns, ms + [Print(p)]);
      assert false;
    }
  }

  lemma SnocPrints(ps: seq<PatchBlock>, ms: seq<string>, p: PatchBlock)
    requires |ps| == |ms| && forall k | 0 <= k < |ms| :: Print(ps[k]) == ms[k]
    ensures forall k | 0 <= k < |ms| + 1 :: Print((ps + [p])[k]) == (ms + [Print(p)])[k]
  {
    forall k | 0 <= k < |ms| + 1 ensures Print((ps + [p])[k]) == (ms + [Print(p)])[k] {
      if k < |ms| { assert (ps + [p])[k] == ps[k]; } else { assert (ps + [p])[k] == p; }
    }
  }

  lemma SamePrints(ps: seq<PatchBlock>, ms: seq<string>, ns: seq<string>)
    requires |ps| == |ms| == |ns|
    requires forall k | 0 <= k < |ps| :: Print(ps[k]) == ms[k]
    requires forall k | 0 <= k < |ps| :: Print(ps[k]) == ns[k]
    ensures ms == ns
  {
    forall k | 0 <= k < |ps| ensures ms[k] == ns[k] { assert Print(ps[k]) == ms[k]; }
  }
}
