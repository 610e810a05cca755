/** What a block's header is, character by character, and what becomes of each patch that is applied
    (packages/axiom-core/src/version.ts:280-334). */
module PatchTerms {
  import opened PromptPatches

  const ID_CHARS := "abcdefghijklmnopqrstuvwxyz0123456789-"

  /** One or more lower-case letters, digits and dashes. */
  predicate IsId(id: string) {
    id != "" && forall k | 0 <= k < |id| :: id[k] in ID_CHARS
  }

  predicate StandsAt(s: string, k: nat, pat: string) {
    k + |pat| <= |s| && s[k..k + |pat|] == pat
  }

  ghost predicate Occurs(s: string, pat: string) {
    exists k: nat :: StandsAt(s, k, pat)
  }

  function Header(id: string): string { "\n\n[axiom:" + id + "]\n" }

  lemma IdCharsAre()
    ensures |ID_CHARS| == 37 && ID_CHARS[36] == '-'
    ensures forall k | 0 <= k < 26 :: ID_CHARS[k] as int == 'a' as int + k
    ensures forall k | 26 <= k < 36 :: ID_CHARS[k] as int == '0' as int + k - 26
  {
  }

  lemma IdCharIs(c: char)
    ensures IdChar(c) <==> c in ID_CHARS
  {
    IdCharsAre();
    if 'a' <= c <= 'z' { assert ID_CHARS[c as int - 'a' as int] == c; }
    if '0' <= c <= '9' { assert ID_CHARS[26 + c as int - '0' as int] == c; }
  }

  lemma {:induction false} IdRunIs(s: string, i: nat, id: string)
    requires IsId(id) && StandsAt(s, i, id + "]")
    ensures IdRun(s, i) == i + |id|
  {
    forall k | i <= k < i + |id| ensures IdChar(s[k]) {
      assert s[k] == (id + "]")[k - i] == id[k - i];
      IdCharIs(s[k]);
    }
    assert s[i + |id|] == (id + "]")[|id|];
    IdCharIs(']');
  }

  lemma HeaderParts(s: string, i: nat, id: string)
    ensures StandsAt(s, i, Header(id))
      <==> StandsAt(s, i, "\n\n[axiom:") && StandsAt(s, i + 9, id) && StandsAt(s, i + 9 + |id|, "]\n")
  {
    var h, open, close := Header(id), "\n\n[axiom:", "]\n";
    assert h == open + id + close && |open| == 9;
    if StandsAt(s, i, h) {
      var t := s[i..i + |h|];
      assert h[..9] == open && h[9..9 + |id|] == id && h[9 + |id|..] == close;
      assert t[..9] == s[i..i + 9] && t[9..9 + |id|] == s[i + 9..i + 9 + |id|];
      assert t[9 + |id|..] == s[i + 9 + |id|..i + 11 + |id|];
    }
    if StandsAt(s, i, open) && StandsAt(s, i + 9, id) && StandsAt(s, i + 9 + |id|, close) {
      assert s[i..i + |h|] == s[i..i + 9] + s[i + 9..i + 9 + |id|] + s[i + 9 + |id|..i + 11 + |id|];
    }
  }

  lemma HeaderHasId(s: string, i: nat)
    requires HeaderAt(s, i)
    ensures var id := s[i + 9..IdRun(s, i + 9)]; IsId(id) && StandsAt(s, i, Header(id))
  {
    hide Header, IdChar;
    var j := IdRun(s, i + 9);
    var id := s[i + 9..j];
    forall k | 0 <= k < |id| ensures id[k] in ID_CHARS { IdCharIs(id[k]); }
    HeaderParts(s, i, id);
  }

  lemma IdEnds(s: string, i: nat, id: string)
    requires StandsAt(s, i, id) && StandsAt(s, i + |id|, "]\n")
    ensures StandsAt(s, i, id + "]")
  {
    assert s[i + |id|] == s[i + |id|..i + |id| + 2][0];
    assert s[i..i + |id| + 1] == s[i..i + |id|] + [s[i + |id|]];
  }

  lemma IdMakesHeader(s: string, i: nat, id: string)
    requires IsId(id) && StandsAt(s, i, Header(id))
    ensures HeaderAt(s, i)
  {
    hide Header, IsId, IdRun;
    HeaderParts(s, i, id);
    IdEnds(s, i + 9, id);
    IdRunIs(s, i + 9, id);
    assert |id| > 0 by { IdIsSomething(id); }
  }

  lemma IdIsSomething(id: string)
    requires IsId(id)
    ensures |id| > 0
  {
  }

  /** Main result: a header starts exactly where two newlines, an opening bracket, "axiom:", an id, a closing
      bracket and a newline stand. */
  lemma HeaderIs(s: string, i: nat)
    ensures HeaderAt(s, i) <==> exists id: string :: IsId(id) && StandsAt(s, i, Header(id))
  {
    hide *;
    if HeaderAt(s, i) { HeaderHasId(s, i); }
    forall id: string | IsId(id) && StandsAt(s, i, Header(id)) ensures HeaderAt(s, i) { IdMakesHeader(s, i, id); }
  }

  lemma IncludesIs(s: string, pat: string)
    ensures Includes(s, pat) <==> Occurs(s, pat)
  {
    assert forall k: nat :: HasAt(s, k, pat) <==> StandsAt(s, k, pat);
  }

  /** Main result: what becomes of one patch.  One whose marker already occurs is set aside; one more than the cap
      on blocks allows is refused, and so is one whose print takes the blocks past the cap on characters; any
      other goes behind the prompt as a block.  Nothing else changes, and without patches nothing at all. */
  lemma PatchBecomes(base: string, ps: seq<PatchBlock>, p: PatchBlock, cap: Cap)
    ensures Apply(base, [], cap) == Application(base, [], [], [])
    ensures var r, n := Apply(base, ps, cap), Apply(base, ps + [p], cap);
      if Occurs(r.prompt, p.marker) then
        n == Application(r.prompt, r.applied, r.alreadyPresent + [p], r.refused)
      else if CountPatches(r.prompt) >= cap.maxPatches then
        n == Application(r.prompt, r.applied, r.alreadyPresent, r.refused + [Refusal(p, TooManyPatches)])
      else if PatchChars(r.prompt) + 5 + |p.marker| + |p.text| > cap.maxPatchChars then
        n == Application(r.prompt, r.applied, r.alreadyPresent, r.refused + [Refusal(p, TooManyChars)])
      else
        n == Application(
               r.prompt + ("\n\n[" + p.marker + "]\n" + p.text), r.applied + [p], r.alreadyPresent, r.refused)
  {
    hide Includes, CountPatches, PatchChars, Occurs;
    IncludesIs(Apply(base, ps, cap).prompt, p.marker);
    assert (ps + [p])[..|ps|] == ps;
  }
}
