/** Applying a whole list of patches: what the caps bound, what is conserved, and why applying
    the same list again changes nothing (packages/axiom-core/src/version.ts:302-334). */
module PatchAccounting {
  import opened PromptPatches
  import opened PatchRoundTrip

  // --- one append -------------------------------------------------------------------------------

  lemma TailWithoutHeader(s: string)
    requires NoHeader(s)
    ensures TailStart(s, 0) == 0
  {
  }

  /** The counted characters grow by exactly the block's length unless the base has no header yet
      and dangles one; the unmarked part stays put in exactly the same cases. */
  lemma AppendCharge(s: string, p: PatchBlock)
    requires WellFormedMarker(p.marker)
    ensures PatchChars(s + Print(p)) == PatchChars(s) + |Print(p)| <==> !(NoHeader(s) && DanglesFrom(s, 0))
    ensures UnmarkedChars(s + Print(p)) == UnmarkedChars(s) <==> !(NoHeader(s) && DanglesFrom(s, 0))
  {
    var b := Print(p);
    PrintIsHeader(p);
    PatchCharsIsTail(s);
    PatchCharsIsTail(s + b);
    if NoHeader(s) {
      SeamScan(s, b, 0);
      var a := NextHeader(s + b, 0);
      assert |(s + b)[..a]| == a;
      if a == |s| { assert (s + b)[..a] == s; }
    } else {
      NextHeaderPrefix(s, b, 0);
      assert (s + b)[..NextHeader(s, 0)] == s[..NextHeader(s, 0)];
    }
  }

  lemma {:induction false} TailAfterAppend(s: string, b: string, i: nat)
    requires IsMatch(b) && i <= |s| && !DanglesFrom(s, TailStart(s, i))
    ensures TailStart(s + b, i) == |s| + HeaderEnd(b, 0)
    decreases |s| - i
  {
    var a := NextHeader(s, i);
    if a < |s| {
      NextHeaderPrefix(s, b, i);
      HeaderPrefix(s, b, a);
      TailAfterAppend(s, b, HeaderEnd(s, a));
    } else {
      SeamScan(s, b, i);
      HeaderShift(s, b, 0);
      NextHeaderShift(s, b, HeaderEnd(b, 0));
    }
  }

  lemma DanglesShift(s: string, t: string, k: nat)
    ensures DanglesAt(s + t, |s| + k) == DanglesAt(t, k)
  {
    if k + 9 <= |t| {
      var u := s + t;
      assert u[|s| + k..|s| + k + 9] == t[k..k + 9];
      IdRunUnique(u, |s| + k + 9, |s| + IdRun(t, k + 9));
    }
  }

  lemma DanglesInSuffix(s: string, t: string)
    ensures DanglesFrom(s + t, |s|) <==> DanglesFrom(t, 0)
  {
    if DanglesFrom(t, 0) {
      var k :| 0 <= k < |t| && DanglesAt(t, k);
      DanglesShift(s, t, k);
    }
    if DanglesFrom(s + t, |s|) {
      var d :| |s| <= d < |s + t| && DanglesAt(s + t, d);
      DanglesShift(s, t, d - |s|);
    }
  }

  /** A well-formed patch leaves a base that does not dangle in that same condition. */
  lemma AppendStaysSafe(s: string, p: PatchBlock)
    requires WellFormed(p) && !Dangling(s)
    ensures !Dangling(s + Print(p))
  {
    var b := Print(p);
    PrintIsHeader(p);
    PrintIsMatch(p);
    TailAfterAppend(s, b, 0);
    var h := |p.marker| + 5;
    SplitAt(s, b, p.text, h);
    DanglesInSuffix(s + b[..h], p.text);
    hide HeaderAt, HeaderEnd, TailStart, WellFormedMarker, DanglesFrom, NoHeader, IsMatch, Print;
  }

  lemma SplitAt(s: string, b: string, t: string, h: nat)
    requires h <= |b| && b[h..] == t
    ensures s + b == (s + b[..h]) + t
  {
  }

  // --- a list of well-formed patches ------------------------------------------------------------

  lemma {:induction false} PrintAllSnoc(ps: seq<PatchBlock>, p: PatchBlock)
    ensures PrintAll(ps + [p]) == PrintAll(ps) + Print(p)
  {
    hide Print;
    if ps == [] {
      assert [] + [p] == [p];
      assert PrintAll([p]) == Print(p) + PrintAll([]);
    } else {
      PrintAllSnoc(ps[1..], p);
      assert (ps + [p])[1..] == ps[1..] + [p];
    }
  }

  ghost predicate Accounted(base: string, r: Application) {
    && r.prompt == base + PrintAll(r.applied)
    && Parse(r.prompt) == Parse(base) + r.applied
    && CountPatches(r.prompt) == CountPatches(base) + |r.applied|
    && PatchChars(r.prompt) == PatchChars(base) + |PrintAll(r.applied)|
    && UnmarkedChars(r.prompt) == UnmarkedChars(base)
    && !Dangling(r.prompt)
  }

  lemma AppendAccounts(s: string, p: PatchBlock)
    requires WellFormed(p) && !Dangling(s)
    ensures Parse(s + Print(p)) == Parse(s) + [p]
    ensures CountPatches(s + Print(p)) == CountPatches(s) + 1
    ensures PatchChars(s + Print(p)) == PatchChars(s) + |Print(p)|
    ensures UnmarkedChars(s + Print(p)) == UnmarkedChars(s)
    ensures !Dangling(s + Print(p))
  {
    AppendRoundTrip(s, p);
    AppendStaysSafe(s, p);
    AppendCharge(s, p);
    if NoHeader(s) { TailWithoutHeader(s); }
    PrintAfterParse(s);
    PrintAfterParse(s + Print(p));
    hide Print, Parse, CountPatches, PatchChars, UnmarkedChars, NoHeader, DanglesFrom, TailStart;
  }

  lemma AppendAssociates<T>(a: seq<T>, b: seq<T>, c: seq<T>)
    ensures a + b + c == a + (b + c)
  {
  }

  lemma AccountedStep(base: string, r: Application, p: PatchBlock)
    requires WellFormed(p) && Accounted(base, r)
    ensures Accounted(base, r.(prompt := r.prompt + Print(p), applied := r.applied + [p]))
  {
    AppendAccounts(r.prompt, p);
    PrintAllSnoc(r.applied, p);
    hide Print, Parse, CountPatches, PatchChars, UnmarkedChars, Dangling, PrintAll, WellFormed;
    AppendAssociates(base, PrintAll(r.applied), Print(p));
    AppendAssociates(Parse(base), r.applied, [p]);
  }

  /** What one patch can do to an application in progress. */
  lemma ApplyOneCases(r: Application, p: PatchBlock, cap: Cap)
    ensures var q := ApplyOne(r, p, cap);
      || (Settled(r.prompt, p, cap) && q.prompt == r.prompt && q.applied == r.applied)
      || (&& CountPatches(r.prompt) < cap.maxPatches
          && PatchChars(r.prompt) + |Print(p)| <= cap.maxPatchChars
          && q == r.(prompt := r.prompt + Print(p), applied := r.applied + [p]))
  {
    hide Print, Includes, CountPatches, PatchChars;
  }

  lemma AccountedNext(base: string, r: Application, p: PatchBlock, cap: Cap)
    requires WellFormed(p) && Accounted(base, r)
    ensures Accounted(base, ApplyOne(r, p, cap))
  {
    AccountedStep(base, r, p);
    ApplyOneCases(r, p, cap);
    hide Print, Includes, CountPatches, PatchChars, Parse, UnmarkedChars, Dangling, PrintAll, WellFormed, ApplyOne,
      Settled;
  }

  lemma AccountedStart(base: string)
    requires !Dangling(base)
    ensures Accounted(base, Start(base))
  {
    hide Print, CountPatches, PatchChars, Parse, UnmarkedChars, Dangling;
    assert base + "" == base;
    assert Parse(base) + [] == Parse(base);
  }

  /** Main result: for well-formed patches over a base that dangles no header, parsing the patched
      prompt gives the base's blocks and then the applied patches, and both counters and the unmarked
      text move by exactly what was appended. */
  lemma {:induction false} ApplyRoundTrip(base: string, ps: seq<PatchBlock>, cap: Cap)
    requires !Dangling(base) && forall p | p in ps :: WellFormed(p)
    ensures Accounted(base, Apply(base, ps, cap))
  {
    hide Accounted, Print, Dangling, WellFormed, ApplyOne;
    if ps == [] {
      AccountedStart(base);
    } else {
      var n := |ps| - 1;
      ApplyRoundTrip(base, ps[..n], cap);
      AccountedNext(base, Apply(base, ps[..n], cap), ps[n], cap);
    }
  }

  function Max(a: int, b: int): int {
    if a < b then b else a
  }

  lemma CountNext(base: string, r: Application, p: PatchBlock, cap: Cap)
    requires WellFormed(p) && !Dangling(r.prompt)
    requires CountPatches(r.prompt) <= Max(CountPatches(base), cap.maxPatches)
    ensures CountPatches(ApplyOne(r, p, cap).prompt) <= Max(CountPatches(base), cap.maxPatches)
  {
    AppendAccounts(r.prompt, p);
    ApplyOneCases(r, p, cap);
    hide Print, Includes, CountPatches, PatchChars, Dangling, WellFormed, ApplyOne, Settled, Parse, UnmarkedChars;
  }

  /** An append to this text is charged with exactly its length. */
  predicate Chargeable(s: string) { !(NoHeader(s) && DanglesFrom(s, 0)) }

  lemma SafeIsChargeable(s: string)
    requires !Dangling(s)
    ensures Chargeable(s)
  {
    if NoHeader(s) { TailWithoutHeader(s); }
  }

  lemma AppendStaysChargeable(s: string, p: PatchBlock)
    requires WellFormedMarker(p.marker)
    ensures Chargeable(s + Print(p))
  {
    PrintIsHeader(p);
    HeaderShift(s, Print(p), 0);
    hide Print, DanglesFrom, HeaderAt;
  }

  lemma CharsNext(base: string, r: Application, p: PatchBlock, cap: Cap)
    requires WellFormedMarker(p.marker) && Chargeable(r.prompt)
    requires PatchChars(r.prompt) <= Max(PatchChars(base), cap.maxPatchChars)
    ensures PatchChars(ApplyOne(r, p, cap).prompt) <= Max(PatchChars(base), cap.maxPatchChars)
    ensures Chargeable(ApplyOne(r, p, cap).prompt)
  {
    AppendCharge(r.prompt, p);
    AppendStaysChargeable(r.prompt, p);
    ApplyOneCases(r, p, cap);
    hide Print, Includes, CountPatches, PatchChars, NoHeader, DanglesFrom, WellFormedMarker, ApplyOne, Settled,
      UnmarkedChars;
  }

  lemma {:induction false} ApplyRespectsCharCap(base: string, ps: seq<PatchBlock>, cap: Cap)
    requires Chargeable(base) && forall p | p in ps :: WellFormedMarker(p.marker)
    ensures PatchChars(Apply(base, ps, cap).prompt) <= Max(PatchChars(base), cap.maxPatchChars)
    ensures Chargeable(Apply(base, ps, cap).prompt)
  {
    hide PatchChars, WellFormedMarker, ApplyOne, Chargeable;
    if ps != [] {
      var n := |ps| - 1;
      ApplyRespectsCharCap(base, ps[..n], cap);
      CharsNext(base, Apply(base, ps[..n], cap), ps[n], cap);
    }
  }

  lemma {:induction false} ApplyRespectsCountCap(base: string, ps: seq<PatchBlock>, cap: Cap)
    requires !Dangling(base) && forall p | p in ps :: WellFormed(p)
    ensures CountPatches(Apply(base, ps, cap).prompt) <= Max(CountPatches(base), cap.maxPatches)
  {
    hide CountPatches, Dangling, WellFormed, ApplyOne;
    if ps != [] {
      var n := |ps| - 1;
      ApplyRespectsCountCap(base, ps[..n], cap);
      var r := Apply(base, ps[..n], cap);
      assert !Dangling(r.prompt) by { ApplyRoundTrip(base, ps[..n], cap); }
      CountNext(base, r, ps[n], cap);
    }
  }

  /** Main result: neither cap is exceeded unless the base already exceeded it: the character cap whatever
      the texts hold, the count for texts and a base that hide no header. */
  lemma ApplyRespectsCaps(base: string, ps: seq<PatchBlock>, cap: Cap)
    requires (NoHeader(base) ==> !DanglesFrom(base, 0)) && forall p | p in ps :: WellFormedMarker(p.marker)
    ensures PatchChars(Apply(base, ps, cap).prompt) <= Max(PatchChars(base), cap.maxPatchChars)
    ensures !Dangling(base) && (forall p | p in ps :: WellFormed(p)) ==>
        CountPatches(Apply(base, ps, cap).prompt) <= Max(CountPatches(base), cap.maxPatches)
  {
    ApplyRespectsCharCap(base, ps, cap);
    if !Dangling(base) && (forall p | p in ps :: WellFormed(p)) { ApplyRespectsCountCap(base, ps, cap); }
    hide PatchChars, CountPatches, Apply, WellFormed, WellFormedMarker, NoHeader, DanglesFrom, Dangling;
  }

  // --- every patch ends in exactly one list, in the order given ---------------------------------

  function RefusedPatches(rs: seq<Refusal>): (ps: seq<PatchBlock>)
    ensures |ps| == |rs|
  {
    if rs == [] then [] else RefusedPatches(rs[..|rs| - 1]) + [rs[|rs| - 1].patch]
  }

  lemma {:induction false} EveryPatchAccountedFor(base: string, ps: seq<PatchBlock>, cap: Cap)
    ensures var r := Apply(base, ps, cap);
      multiset(ps) == multiset(r.applied) + multiset(r.alreadyPresent) + multiset(RefusedPatches(r.refused))
  {
    hide ApplyOne;
    if ps != [] {
      var n := |ps| - 1;
      EveryPatchAccountedFor(base, ps[..n], cap);
      assert ps == ps[..n] + [ps[n]];
      OneListGrows(Apply(base, ps[..n], cap), ps[n], cap);
    }
  }

  function Placed(r: Application): multiset<PatchBlock> {
    multiset(r.applied) + multiset(r.alreadyPresent) + multiset(RefusedPatches(r.refused))
  }

  lemma RefusedSnoc(rs: seq<Refusal>, x: Refusal)
    ensures RefusedPatches(rs + [x]) == RefusedPatches(rs) + [x.patch]
  {
    assert (rs + [x])[..|rs|] == rs;
  }

  lemma OneListGrows(r: Application, p: PatchBlock, cap: Cap)
    ensures Placed(ApplyOne(r, p, cap)) == Placed(r) + multiset{p}
  {
    RefusedSnoc(r.refused, Refusal(p, TooManyPatches));
    RefusedSnoc(r.refused, Refusal(p, TooManyChars));
    hide Print, Includes, CountPatches, PatchChars, RefusedPatches;
  }

  // --- applying the same list twice: no well-formedness needed ----------------------------------

  lemma {:induction false} MatchesGrow(s: string, t: string, i: nat)
    requires i <= |s|
    ensures |Matches(s, i)| <= |Matches(s + t, i)|
    decreases |s| - i
  {
    var a := NextHeader(s, i);
    if a < |s| {
      NextHeaderPrefix(s, t, i);
      HeaderPrefix(s, t, a);
      var e := NextHeader(s, HeaderEnd(s, a));
      if e < |s| {
        NextHeaderPrefix(s, t, HeaderEnd(s, a));
        MatchesGrow(s, t, e);
      } else {
        assert Matches(s, e) == [];
      }
    }
  }

  lemma PatchCharsGrow(s: string, t: string)
    ensures PatchChars(s) <= PatchChars(s + t)
  {
    PatchCharsIsTail(s);
    PatchCharsIsTail(s + t);
    if NextHeader(s, 0) < |s| { NextHeaderPrefix(s, t, 0); }
  }

  lemma IncludesGrow(s: string, t: string, pat: string)
    requires Includes(s, pat)
    ensures Includes(s + t, pat)
  {
    var r := IndexOf(s, pat);
    assert (s + t)[r..r + |pat|] == s[r..r + |pat|];
    assert HasAt(s + t, r, pat);
  }

  lemma PrintIncludesMarker(s: string, p: PatchBlock, t: string)
    ensures Includes(s + Print(p) + t, p.marker)
  {
    var u := s + Print(p) + t;
    var k := |s| + 3;
    assert u == (s + "\n\n[") + (p.marker + ("]\n" + p.text + t));
    assert u[k..k + |p.marker|] == p.marker;
    assert HasAt(u, k, p.marker);
  }

  /** Applying `p` to this prompt would not change it. */
  predicate Settled(prompt: string, p: PatchBlock, cap: Cap) {
    || Includes(prompt, p.marker)
    || CountPatches(prompt) >= cap.maxPatches
    || PatchChars(prompt) + |Print(p)| > cap.maxPatchChars
  }

  lemma SettledGrows(s: string, t: string, p: PatchBlock, cap: Cap)
    requires Settled(s, p, cap)
    ensures Settled(s + t, p, cap)
  {
    MatchesGrow(s, t, 0);
    PatchCharsGrow(s, t);
    if Includes(s, p.marker) { IncludesGrow(s, t, p.marker); }
  }

  lemma {:induction false} ApplySettles(base: string, ps: seq<PatchBlock>, cap: Cap)
    ensures forall p | p in ps :: Settled(Apply(base, ps, cap).prompt, p, cap)
  {
    if ps != [] {
      var n := |ps| - 1;
      ApplySettles(base, ps[..n], cap);
      var s, u := Apply(base, ps[..n], cap).prompt, Apply(base, ps, cap).prompt;
      assert ps == ps[..n] + [ps[n]];
      if u != s {
        var t := Print(ps[n]);
        assert u == s + t;
        forall p | p in ps[..n] ensures Settled(u, p, cap) { SettledGrows(s, t, p, cap); }
        PrintIncludesMarker(s, ps[n], "");
        assert s + t + "" == u;
      }
    }
  }

  lemma SettledOne(r: Application, p: PatchBlock, cap: Cap)
    requires Settled(r.prompt, p, cap)
    ensures ApplyOne(r, p, cap).prompt == r.prompt && ApplyOne(r, p, cap).applied == r.applied
  {
    hide Print, Includes, CountPatches, PatchChars;
  }

  lemma {:induction false} SettledStays(s: string, ps: seq<PatchBlock>, cap: Cap)
    requires forall p | p in ps :: Settled(s, p, cap)
    ensures Apply(s, ps, cap).prompt == s && Apply(s, ps, cap).applied == []
  {
    hide ApplyOne, Settled;
    if ps != [] {
      var n := |ps| - 1;
      SettledStays(s, ps[..n], cap);
      SettledOne(Apply(s, ps[..n], cap), ps[n], cap);
    }
  }

  /** Main result, for every base, every patch list and every cap: a second application is a no-op. */
  lemma ApplyTwice(base: string, ps: seq<PatchBlock>, cap: Cap)
    ensures var once := Apply(base, ps, cap).prompt;
      Apply(once, ps, cap).prompt == once && Apply(once, ps, cap).applied == []
  {
    ApplySettles(base, ps, cap);
    SettledStays(Apply(base, ps, cap).prompt, ps, cap);
  }

  // --- re-applying what a prompt already carries ------------------------------------------------

  lemma {:induction false} PrintAllSplit(ps: seq<PatchBlock>, k: nat)
    requires k < |ps|
    ensures PrintAll(ps) == PrintAll(ps[..k]) + Print(ps[k]) + PrintAll(ps[k + 1..])
  {
    hide Print;
    if k == 0 {
      assert ps[..0] == [];
    } else {
      PrintAllSplit(ps[1..], k - 1);
      assert ps[1..][..k - 1] == ps[..k][1..] && ps[1..][k..] == ps[k + 1..];
      assert PrintAll(ps[..k]) == Print(ps[0]) + PrintAll(ps[..k][1..]);
    }
  }

  lemma {:induction false} AllPresent(s: string, ps: seq<PatchBlock>, cap: Cap)
    requires forall p | p in ps :: Includes(s, p.marker)
    ensures Apply(s, ps, cap) == Application(s, [], ps, [])
  {
    hide Includes, CountPatches, PatchChars, Print;
    if ps != [] {
      AllPresent(s, ps[..|ps| - 1], cap);
      assert ps == ps[..|ps| - 1] + [ps[|ps| - 1]];
    }
  }

  lemma ParsedIsIncluded(s: string, k: nat)
    requires k < |Parse(s)|
    ensures Includes(s, Parse(s)[k].marker)
  {
    PrintAfterParse(s);
    var ps := Parse(s);
    PrintAllSplit(ps, k);
    var before, after := UnmarkedChars(s) + PrintAll(ps[..k]), PrintAll(ps[k + 1..]);
    PrintIncludesMarker(before, ps[k], after);
    hide Print, PrintAll, Parse, UnmarkedChars, Includes;
    AppendAssociates(UnmarkedChars(s), PrintAll(ps[..k]), Print(ps[k]));
    AppendAssociates(UnmarkedChars(s), PrintAll(ps[..k]) + Print(ps[k]), after);
  }

  /** Main result, for every prompt: re-applying the parsed patches finds all of them present. */
  lemma ReapplyParsed(s: string, cap: Cap)
    ensures Apply(s, Parse(s), cap) == Application(s, [], Parse(s), [])
  {
    hide Parse, Includes;
    var ps := Parse(s);
    forall p | p in ps ensures Includes(s, p.marker) {
      var k :| 0 <= k < |ps| && ps[k] == p;
      ParsedIsIncluded(s, k);
    }
    AllPresent(s, ps, cap);
  }
}
