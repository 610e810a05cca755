/** The prompt-patch printer and parser of packages/axiom-core/src/version.ts.

    A patch is printed as "\n\n[marker]\n" followed by its text.  The pattern that finds it back
    is an explicit left-to-right scanner here: a header, then everything up to the next header
    or the end of the prompt, then on from there. */
module PromptPatches {

  datatype PatchBlock = PatchBlock(marker: string, text: string)

  datatype Cap = Cap(maxPatches: int, maxPatchChars: int)

  const PROMPT_CAP := Cap(6, 2400)

  // --- strings ----------------------------------------------------------------------------------

  predicate HasAt(s: string, i: nat, pat: string) {
    i + |pat| <= |s| && s[i..i + |pat|] == pat
  }

  /** The first position at or after `i` where `pat` occurs, or -1. */
  function IndexOf(s: string, pat: string, i: nat := 0): (r: int)
    ensures r == -1 ==> forall k: nat | i <= k :: !HasAt(s, k, pat)
    ensures r != -1 ==> i <= r && HasAt(s, r, pat) && forall k: nat | i <= k < r :: !HasAt(s, k, pat)
    decreases |s| - i
  {
    if i + |pat| > |s| then -1
    else if HasAt(s, i, pat) then i
    else if i == |s| then -1
    else IndexOf(s, pat, i + 1)
  }

  predicate Includes(s: string, pat: string) {
    IndexOf(s, pat) != -1
  }

  // --- the scanner ------------------------------------------------------------------------------

  const HEADER_OPEN := "\n\n[axiom:"

  predicate IdChar(c: char) {
    'a' <= c <= 'z' || '0' <= c <= '9' || c == '-'
  }

  /** Where the run of id characters starting at `i` ends. */
  function IdRun(s: string, i: nat): (r: nat)
    requires i <= |s|
    ensures i <= r <= |s|
    ensures forall k | i <= k < r :: IdChar(s[k])
    ensures r < |s| ==> !IdChar(s[r])
    decreases |s| - i
  {
    if i < |s| && IdChar(s[i]) then IdRun(s, i + 1) else i
  }

  /** "\n\n[axiom:", at least one id character, "]\n". */
  predicate HeaderAt(s: string, i: nat) {
    && HasAt(s, i, HEADER_OPEN)
    && var j := IdRun(s, i + 9); i + 9 < j && HasAt(s, j, "]\n")
  }

  function HeaderEnd(s: string, i: nat): (r: nat)
    requires HeaderAt(s, i)
    ensures i + 11 < r <= |s|
  {
    IdRun(s, i + 9) + 2
  }

  function NextHeader(s: string, i: nat): (r: nat)
    requires i <= |s|
    ensures i <= r <= |s|
    ensures r < |s| ==> HeaderAt(s, r)
    ensures forall k | i <= k < r :: !HeaderAt(s, k)
    decreases |s| - i
  {
    if i == |s| || HeaderAt(s, i) then i else NextHeader(s, i + 1)
  }

  /** Every match of the block pattern from `i` on, left to right. */
  function Matches(s: string, i: nat): (ms: seq<string>)
    requires i <= |s|
    decreases |s| - i
  {
    var a := NextHeader(s, i);
    if a == |s| then []
    else
      var e := NextHeader(s, HeaderEnd(s, a));
      [s[a..e]] + Matches(s, e)
  }

  /** The prompt with every match cut out. */
  function CutMatches(s: string, i: nat): string
    requires i <= |s|
    decreases |s| - i
  {
    var a := NextHeader(s, i);
    if a == |s| then s[i..]
    else
      var e := NextHeader(s, HeaderEnd(s, a));
      s[i..a] + CutMatches(s, e)
  }

  function Concat(ms: seq<string>): string {
    if ms == [] then "" else ms[0] + Concat(ms[1..])
  }

  function CountPatches(prompt: string): nat {
    |Matches(prompt, 0)|
  }

  function PatchChars(prompt: string): nat {
    |Concat(Matches(prompt, 0))|
  }

  function UnmarkedChars(prompt: string): string {
    CutMatches(prompt, 0)
  }

  // --- printing and parsing one block -----------------------------------------------------------

  function Print(p: PatchBlock): string {
    "\n\n[" + p.marker + "]\n" + p.text
  }

  function PrintAll(ps: seq<PatchBlock>): string {
    if ps == [] then "" else Print(ps[0]) + PrintAll(ps[1..])
  }

  function DropLeadingBlankLine(m: string): string {
    if HasAt(m, 0, "\n\n") then m[2..] else m
  }

  /** What one match contributes to the parsed list: nothing when no "]\n" closes the marker. */
  function ParseMatch(m: string): seq<PatchBlock> {
    var inner := DropLeadingBlankLine(m);
    var close := IndexOf(inner, "]\n");
    if close <= 0 then [] else [PatchBlock(inner[1..close], inner[close + 2..])]
  }

  function ParseMatches(ms: seq<string>): seq<PatchBlock> {
    if ms == [] then [] else ParseMatches(ms[..|ms| - 1]) + ParseMatch(ms[|ms| - 1])
  }

  function Parse(prompt: string): seq<PatchBlock> {
    ParseMatches(Matches(prompt, 0))
  }

  lemma ParseMatchesStep(ms: seq<string>, n: nat)
    requires n < |ms|
    ensures ParseMatches(ms[..n + 1]) == ParseMatches(ms[..n]) + ParseMatch(ms[n])
  {
    assert ms[..n + 1][..n] == ms[..n];
  }

  lemma ParseStarts(prompt: string)
    ensures Parse(prompt) == ParseMatches(Matches(prompt, 0)) && ParseMatches([]) == []
  {
    hide Matches;
  }

  lemma ParseMatchCases(m: string)
    ensures var inner := DropLeadingBlankLine(m); var close := IndexOf(inner, "]\n");
      && (close <= 0 ==> ParseMatch(m) == [])
      && (close > 0 ==> close + 2 <= |inner| && ParseMatch(m) == [PatchBlock(inner[1..close], inner[close + 2..])])
  {
    hide DropLeadingBlankLine;
  }

  method ParsePromptPatches(prompt: string) returns (out: seq<PatchBlock>)
    ensures out == Parse(prompt)
  {
    hide *;
    out := [];
    var ms := Matches(prompt, 0);
    ParseStarts(prompt);
    for n := 0 to |ms|
      invariant out == ParseMatches(ms[..n])
    {
      ParseMatchesStep(ms, n);
      ParseMatchCases(ms[n]);
      var inner := DropLeadingBlankLine(ms[n]);
      var close := IndexOf(inner, "]\n");
      if close <= 0 {
        continue;
      }
      var patch := PatchBlock(inner[1..close], inner[close + 2..]);
      out := out + [patch];
    }
    assert ms[..|ms|] == ms;
  }

  // --- applying patches -------------------------------------------------------------------------

  datatype RefusalReason = TooManyPatches | TooManyChars

  datatype Refusal = Refusal(patch: PatchBlock, reason: RefusalReason)

  datatype Application = Application(
    prompt: string,
    applied: seq<PatchBlock>,
    alreadyPresent: seq<PatchBlock>,
    refused: seq<Refusal>)

  function Start(base: string): Application {
    Application(base, [], [], [])
  }

  function ApplyOne(r: Application, p: PatchBlock, cap: Cap): Application {
    if Includes(r.prompt, p.marker) then r.(alreadyPresent := r.alreadyPresent + [p])
    else if CountPatches(r.prompt) >= cap.maxPatches then
      r.(refused := r.refused + [Refusal(p, TooManyPatches)])
    else if PatchChars(r.prompt) + |Print(p)| > cap.maxPatchChars then
      r.(refused := r.refused + [Refusal(p, TooManyChars)])
    else r.(prompt := r.prompt + Print(p), applied := r.applied + [p])
  }

  function Apply(base: string, ps: seq<PatchBlock>, cap: Cap): Application {
    if ps == [] then Start(base) else ApplyOne(Apply(base, ps[..|ps| - 1], cap), ps[|ps| - 1], cap)
  }

  method ApplyPromptPatches(base: string, patches: seq<PatchBlock>, cap: Cap := PROMPT_CAP)
    returns (r: Application)
    ensures r == Apply(base, patches, cap)
  {
    var applied, alreadyPresent, refused: seq<Refusal> := [], [], [];
    var prompt := base;
    for n := 0 to |patches|
      invariant Application(prompt, applied, alreadyPresent, refused) == Apply(base, patches[..n], cap)
    {
      assert patches[..n + 1][..n] == patches[..n];
      var p := patches[n];
      if Includes(prompt, p.marker) {
        alreadyPresent := alreadyPresent + [p];
        continue;
      }
      if CountPatches(prompt) >= cap.maxPatches {
        refused := refused + [Refusal(p, TooManyPatches)];
        continue;
      }
      var block := Print(p);
      if PatchChars(prompt) + |block| > cap.maxPatchChars {
        refused := refused + [Refusal(p, TooManyChars)];
        continue;
      }
      prompt := prompt + block;
      applied := applied + [p];
    }
    assert patches[..|patches|] == patches;
    r := Application(prompt, applied, alreadyPresent, refused);
  }

  // --- well-formed patches and dangling headers -------------------------------------------------

  predicate WellFormedMarker(m: string) {
    HasAt(m, 0, "axiom:") && |m| > 6 && forall k | 6 <= k < |m| :: IdChar(m[k])
  }

  predicate NoHeader(s: string) {
    NextHeader(s, 0) == |s|
  }

  /** A header that lacks only its final newline, flush with the end of `s`. */
  predicate DanglesAt(s: string, d: nat) {
    && HasAt(s, d, HEADER_OPEN)
    && var j := IdRun(s, d + 9); d + 9 < j && j + 1 == |s| && s[j] == ']'
  }

  predicate DanglesFrom(s: string, i: nat) {
    exists d | i <= d < |s| :: DanglesAt(s, d)
  }

  /** Where the text after the last header of `s` starts, or `i` when none follows `i`. */
  function TailStart(s: string, i: nat): (r: nat)
    requires i <= |s|
    ensures i <= r <= |s|
    decreases |s| - i
  {
    var a := NextHeader(s, i);
    if a == |s| then i else TailStart(s, HeaderEnd(s, a))
  }

  predicate Dangling(s: string) {
    DanglesFrom(s, TailStart(s, 0))
  }

  predicate WellFormed(p: PatchBlock) {
    WellFormedMarker(p.marker) && NoHeader(p.text) && !DanglesFrom(p.text, 0)
  }

  // --- headers under concatenation --------------------------------------------------------------

  /** A run whose stopping character is inside the prefix does not see what follows. */
  lemma {:induction false} IdRunPrefix(s: string, t: string, i: nat)
    requires i <= |s| && IdRun(s, i) < |s|
    ensures IdRun(s + t, i) == IdRun(s, i)
    decreases |s| - i
  {
    if IdChar(s[i]) { IdRunPrefix(s, t, i + 1); }
  }

  lemma {:induction false} IdRunUnique(s: string, i: nat, j: nat)
    requires i <= j <= |s| && (forall k | i <= k < j :: IdChar(s[k])) && (j < |s| ==> !IdChar(s[j]))
    ensures IdRun(s, i) == j
    decreases j - i
  {
    if i < j { IdRunUnique(s, i + 1, j); }
  }

  lemma HeaderPrefix(s: string, t: string, i: nat)
    requires HeaderAt(s, i)
    ensures HeaderAt(s + t, i) && HeaderEnd(s + t, i) == HeaderEnd(s, i)
  {
    IdRunPrefix(s, t, i + 9);
    var j := IdRun(s, i + 9);
    assert (s + t)[i..i + 9] == s[i..i + 9];
    assert (s + t)[j..j + 2] == s[j..j + 2];
  }

  lemma HeaderShape(s: string, i: nat)
    requires HeaderAt(s, i)
    ensures s[i] == '\n' && s[i + 1] == '\n' && s[i + 2] == '['
    ensures forall k | i + 2 <= k < HeaderEnd(s, i) - 1 :: s[k] != '\n'
    ensures s[HeaderEnd(s, i) - 2] == ']' && s[HeaderEnd(s, i) - 1] == '\n'
  {
    var j := IdRun(s, i + 9);
    assert forall k | i <= k < i + 9 :: s[k] == s[i..i + 9][k - i];
    assert s[j] == s[j..j + 2][0] && s[j + 1] == s[j..j + 2][1];
    forall k | i + 2 <= k < HeaderEnd(s, i) - 1 ensures s[k] != '\n' {
      if k < i + 9 { assert s[k] == HEADER_OPEN[k - i]; }
    }
  }

  /** Two headers overlap in at most the newline they share. */
  lemma HeadersBarelyOverlap(s: string, k: nat, a: nat)
    requires HeaderAt(s, k) && HeaderAt(s, a) && k < a
    ensures HeaderEnd(s, k) - 1 <= a
  {
    HeaderShape(s, k);
    HeaderShape(s, a);
  }

  lemma HeaderInPrefix(s: string, t: string, k: nat)
    requires HeaderAt(s + t, k) && HeaderEnd(s + t, k) <= |s|
    ensures HeaderAt(s, k)
  {
    var u := s + t;
    var j := IdRun(u, k + 9);
    assert forall m | k + 9 <= m < j :: s[m] == u[m];
    IdRunUnique(s, k + 9, j);
    assert u[k..k + 9] == s[k..k + 9];
    assert u[j..j + 2] == s[j..j + 2];
  }

  lemma NextHeaderUnique(s: string, i: nat, a: nat)
    requires i <= a <= |s| && (a < |s| ==> HeaderAt(s, a)) && forall k | i <= k < a :: !HeaderAt(s, k)
    ensures NextHeader(s, i) == a
  {
  }

  /** Appending text does not move a header the scan already finds. */
  lemma NextHeaderPrefix(s: string, t: string, i: nat)
    requires i <= |s| && NextHeader(s, i) < |s|
    ensures NextHeader(s + t, i) == NextHeader(s, i)
  {
    var a := NextHeader(s, i);
    HeaderPrefix(s, t, a);
    forall k | i <= k < a ensures !HeaderAt(s + t, k) {
      if HeaderAt(s + t, k) {
        HeadersBarelyOverlap(s + t, k, a);
        HeaderInPrefix(s, t, k);
      }
    }
    NextHeaderUnique(s + t, i, a);
  }

  lemma {:induction false} HeaderShift(s: string, t: string, k: nat)
    ensures HeaderAt(s + t, |s| + k) == HeaderAt(t, k)
    ensures HeaderAt(t, k) ==> HeaderEnd(s + t, |s| + k) == |s| + HeaderEnd(t, k)
  {
    var u := s + t;
    if k + 9 <= |t| {
      assert u[|s| + k..|s| + k + 9] == t[k..k + 9];
      var j := IdRun(t, k + 9);
      IdRunUnique(u, |s| + k + 9, |s| + j);
      if j + 2 <= |t| { assert u[|s| + j..|s| + j + 2] == t[j..j + 2]; }
    }
  }

  lemma NextHeaderShift(s: string, t: string, k: nat)
    requires k <= |t|
    ensures NextHeader(s + t, |s| + k) == |s| + NextHeader(t, k)
  {
    hide HeaderAt, HeaderEnd;
    var a := NextHeader(t, k);
    HeaderShift(s, t, a);
    forall m | |s| + k <= m < |s| + a ensures !HeaderAt(s + t, m) { HeaderShift(s, t, m - |s|); }
    NextHeaderUnique(s + t, |s| + k, |s| + a);
  }

  lemma PrintIsHeader(p: PatchBlock)
    requires WellFormedMarker(p.marker)
    ensures HeaderAt(Print(p), 0) && HeaderEnd(Print(p), 0) == |p.marker| + 5
    ensures Print(p)[|p.marker| + 5..] == p.text
  {
    var b := Print(p);
    var m := p.marker;
    var j := |m| + 3;
    forall k | 0 <= k < |m| ensures b[3 + k] == m[k] {}
    assert b[..3] == "\n\n[" && b[j] == ']' && b[j + 1] == '\n';
    assert m[..6] == "axiom:";
    assert b[0..9] == b[..3] + m[..6];
    forall k | 9 <= k < j ensures IdChar(b[k]) { assert b[k] == m[k - 3]; }
    IdRunUnique(b, 9, j);
    assert b[j..j + 2] == "]\n";
  }

  /** The only header that appending a block can create across the seam is a dangling one. */
  lemma SeamHeader(s: string, b: string, k: nat)
    requires HeaderAt(b, 0) && k < |s|
    ensures HeaderAt(s + b, k) <==> HeaderAt(s, k) || DanglesAt(s, k)
  {
    var u := s + b;
    HeaderShape(b, 0);
    assert u[|s|] == '\n' && u[|s| + 1] == '\n';
    if HeaderAt(s, k) {
      HeaderPrefix(s, b, k);
    }
    if DanglesAt(s, k) {
      var j := IdRun(s, k + 9);
      IdRunPrefix(s, b, k + 9);
      assert u[k..k + 9] == s[k..k + 9];
      assert u[j..j + 2] == "]\n";
    }
    if HeaderAt(u, k) {
      HeaderShape(u, k);
      var j := IdRun(u, k + 9);
      if HeaderEnd(u, k) <= |s| {
        HeaderInPrefix(s, b, k);
      } else {
        assert |s| == j + 1;
        assert u[k..k + 9] == s[k..k + 9];
        assert forall m | k + 9 <= m < j :: s[m] == u[m];
        assert s[j] == u[j];
        IdRunUnique(s, k + 9, j);
      }
    }
  }
}
