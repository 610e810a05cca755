/** What masking promises: offsets and newlines stay, nothing that could mislead a brace counter is left,
    and masking masked source changes nothing (scripts/panic-census.py:39-45). */
module MaskingLaws {
  import opened RustMasking
  import opened TextLines

  predicate IsBlank(c: char) { c == ' ' || c == '\n' }

  predicate AllBlank(s: string) { forall k | 0 <= k < |s| :: IsBlank(s[k]) }

  /** The same length, the same newlines, every character the original or a space. */
  ghost predicate SameShape(s: string, t: string) {
    && |t| == |s|
    && forall k | 0 <= k < |s| :: (t[k] == '\n' <==> s[k] == '\n') && (t[k] == s[k] || t[k] == ' ')
  }

  lemma {:induction false} BlankedShape(s: string)
    ensures SameShape(s, Blanked(s)) && AllBlank(Blanked(s))
  {
    if s != "" { BlankedShape(s[1..]); }
  }

  lemma SameShapeConcat(a: string, b: string, c: string, d: string)
    requires SameShape(a, c) && SameShape(b, d)
    ensures SameShape(a + b, c + d)
  {
  }

  lemma {:induction false} MaskKeepsShape(s: string)
    ensures SameShape(s, Masked(s))
  {
    hide TokenLen, Blanked;
    var n := TokenLen(s);
    if s != "" && n > 0 {
      MaskKeepsShape(s[n..]);
      BlankedShape(s[..n]);
      SameShapeConcat(s[..n], s[n..], Blanked(s[..n]), Masked(s[n..]));
      assert s == s[..n] + s[n..];
    } else if s != "" {
      MaskKeepsShape(s[1..]);
      SameShapeConcat([s[0]], s[1..], [s[0]], Masked(s[1..]));
      assert s == [s[0]] + s[1..];
    }
  }

  /** A literal or comment is at least two characters long, unless it is a quote that ends the source. */
  lemma TokenIsLong(s: string)
    requires TokenLen(s) > 0
    ensures TokenLen(s) >= 2 || |s| == 1
  {
    hide BlockLen, ThroughLen, Hashes, RawHashes, RawOpenLen;
    if StartsWith(s, "//") {
      assert s[0] == s[..2][0] == '/' && s[1] == s[..2][1] == '/';
      assert LineLen(s) == 1 + LineLen(s[1..]) && LineLen(s[1..]) >= 1;
    }
  }

  /** The head of masked source: the original character, or a blank followed by a blank. */
  lemma MaskedHead(s: string)
    requires s != ""
    ensures |Masked(s)| == |s|
    ensures TokenLen(s) == 0 ==> Masked(s) == [s[0]] + Masked(s[1..])
    ensures TokenLen(s) > 0 ==> IsBlank(Masked(s)[0]) && (|s| > 1 ==> IsBlank(Masked(s)[1]))
  {
    MaskKeepsShape(s);
    hide TokenLen, Blanked;
    if TokenLen(s) > 0 {
      TokenIsLong(s);
      BlankedShape(s[..TokenLen(s)]);
    }
  }

  // --- nothing survives ---------------------------------------------------------------------------

  /** A character that could open a literal or a comment where it stands. */
  predicate Opens(t: string, k: nat)
    requires k < |t|
  {
    t[k] == '"' || (t[k] == '/' && k + 1 < |t| && (t[k + 1] == '/' || t[k + 1] == '*'))
  }

  ghost predicate Clean(t: string) {
    forall k | 0 <= k < |t| :: !Opens(t, k)
  }

  lemma WhatOpensIsAToken(s: string)
    requires s != "" && Opens(s, 0)
    ensures TokenLen(s) > 0
  {
    hide BlockLen, ThroughLen, Hashes, RawHashes, RawOpenLen;
    if s[0] == '"' {
      assert StartsWith(s, "\"");
      assert |s| >= 2 ==> s[..2][0] == '"';
    } else {
      assert s[..2] == [s[0], s[1]];
    }
  }

  lemma CleanConcat(b: string, t: string)
    requires AllBlank(b) && Clean(t)
    ensures Clean(b + t)
  {
    forall k | 0 <= k < |b + t| ensures !Opens(b + t, k) {
      if k >= |b| { assert !Opens(t, k - |b|); }
    }
  }

  // No double quote, `//` or `/*` is left anywhere.
  lemma {:induction false} NothingSurvives(s: string)
    ensures Clean(Masked(s))
  {
    hide TokenLen, Blanked;
    var n := TokenLen(s);
    if s != "" && n > 0 {
      NothingSurvives(s[n..]);
      BlankedShape(s[..n]);
      CleanConcat(Blanked(s[..n]), Masked(s[n..]));
    } else if s != "" {
      var t := Masked(s[1..]);
      NothingSurvives(s[1..]);
      MaskedHead(s);
      if Opens(s, 0) { WhatOpensIsAToken(s); }
      if s[1..] != "" { MaskedHead(s[1..]); }
      hide Masked;
      forall k | 0 <= k < |s| ensures !Opens([s[0]] + t, k) {
        if k > 0 { assert !Opens(t, k - 1); }
      }
    }
  }

  // --- masking twice ------------------------------------------------------------------------------

  lemma BlankOpensNothing(t: string)
    requires t != "" && IsBlank(t[0])
    ensures TokenLen(t) == 0
  {
    hide BlockLen, ThroughLen, Hashes, RawHashes, LineLen, StringLen, HashLen;
    assert |t| >= 2 ==> t[..2][0] == t[0];
    assert t[..1] == [t[0]];
  }

  lemma BlankPassesThrough(t: string)
    requires t != "" && IsBlank(t[0])
    ensures Masked(t) == [t[0]] + Masked(t[1..])
  {
    BlankOpensNothing(t);
    hide TokenLen, Blanked;
  }

  lemma BlankHead(b: string)
    requires AllBlank(b) && b != ""
    ensures IsBlank(b[0]) && AllBlank(b[1..])
  {
    hide IsBlank;
  }

  lemma {:induction false} BlanksPassThrough(b: string, t: string)
    requires AllBlank(b)
    ensures Masked(b + t) == b + Masked(t)
  {
    hide *;
    if b == "" {
      assert b + t == t;
    } else {
      BlankHead(b);
      BlankPassesThrough(b + t);
      assert (b + t)[1..] == b[1..] + t;
      BlanksPassThrough(b[1..], t);
    }
  }

  /** Where no quote and no comment opens, only a character literal can start. */
  lemma CleanTokens(t: string)
    requires t != "" && Clean(t) && CharLen(t) == 0
    ensures TokenLen(t) == 0
  {
    hide BlockLen, ThroughLen, Hashes, RawHashes, LineLen, StringLen;
    forall k | 0 <= k < |t| ensures t[k] != '"' { assert !Opens(t, k); }
    hide RawOpenLen;
    assert !Opens(t, 0);
    assert |t| >= 2 ==> t[..2] == [t[0], t[1]];
    assert RawOpenLen(t) == 0;
  }

  lemma QuoteTokens(s: string)
    requires s != "" && s[0] == '\''
    ensures TokenLen(s) == CharLen(s)
  {
    hide BlockLen, ThroughLen, Hashes, RawHashes, LineLen, StringLen, CharLen;
    assert |s| >= 2 ==> s[..2] == [s[0], s[1]];
    assert s[..1] == [s[0]];
  }

  /** A character of the masked source that is no blank was there before, and stood on its own. */
  lemma PlainAt(s: string)
    requires s != "" && (!IsBlank(Masked(s)[0]) || (|s| > 1 && !IsBlank(Masked(s)[1])))
    ensures TokenLen(s) == 0 && Masked(s) == [s[0]] + Masked(s[1..])
  {
    MaskedHead(s);
    hide *;
  }

  /** Behind a plain character, the next two of the masked source were there if the second is no blank. */
  lemma PlainBehind(s: string)
    requires |s| >= 2 && !IsBlank(Masked(s)[1])
    ensures Masked(s) == [s[0], s[1]] + Masked(s[2..]) && TokenLen(s) == 0
  {
    hide *;
    PlainAt(s);
    var rest := s[1..];
    assert Masked(rest)[0] == Masked(s)[1];
    PlainAt(rest);
    assert rest[1..] == s[2..] && rest[0] == s[1];
  }

  /** A character literal of the masked source was one before. */
  lemma LiteralWasThere(s: string)
    requires CharLen(Masked(s)) > 0 && TokenLen(s) == 0
    ensures CharLen(s) > 0
  {
    var t := Masked(s);
    var n := CharLen(t);
    MaskedHead(s);
    hide TokenLen, Masked, IsBlank;
    assert s[0] == t[0] && t[1..] == Masked(s[1..]);
    assert !IsBlank('\'') && !IsBlank('\\') by { BlanksAreNot(); }
    if n == 4 {
      PlainAt(s[1..]);
      assert s[1..][1..] == s[2..];
      PlainBehind(s[2..]);
      assert t == [s[0]] + ([s[1]] + ([s[2], s[3]] + Masked(s[2..][2..])));
    } else {
      PlainBehind(s[1..]);
      assert t == [s[0]] + ([s[1], s[2]] + Masked(s[1..][2..]));
    }
  }

  lemma BlanksAreNot()
    ensures !IsBlank('\'') && !IsBlank('\\')
  {
  }

  lemma NoNewLiteral(s: string)
    requires s != "" && TokenLen(s) == 0
    ensures CharLen(Masked(s)) == 0
  {
    hide TokenLen, Masked, Blanked;
    if CharLen(Masked(s)) > 0 {
      LiteralWasThere(s);
      MaskedHead(s);
      QuoteTokens(s);
      assert false;
    }
  }

  /** Masking twice is masking once. */
  lemma {:induction false} MaskingAgainChangesNothing(s: string)
    ensures Masked(Masked(s)) == Masked(s)
  {
    hide TokenLen, Blanked, Clean, CharLen, AllBlank;
    var n := TokenLen(s);
    if s != "" && n > 0 {
      MaskingAgainChangesNothing(s[n..]);
      BlankedShape(s[..n]);
      BlanksPassThrough(Blanked(s[..n]), Masked(s[n..]));
    } else if s != "" {
      MaskingAgainChangesNothing(s[1..]);
      NoNewLiteral(s);
      NothingSurvives(s);
      CleanTokens(Masked(s));
      assert Masked(s)[1..] == Masked(s[1..]);
    }
  }

  /** Source without quotes or slashes is all code, and is left alone. */
  lemma {:induction false} CodeIsKept(s: string)
    requires forall k | 0 <= k < |s| :: s[k] != '"' && s[k] != '\'' && s[k] != '/'
    ensures Masked(s) == s
  {
    hide TokenLen, Blanked;
    if s != "" {
      assert CharLen(s) == 0;
      CleanTokens(s);
      CodeIsKept(s[1..]);
    }
  }
}
