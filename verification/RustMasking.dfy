/** The census's masker: comments and literals of Rust source blanked out in place
    (scripts/panic-census.py:39-107). */
module RustMasking {
  import opened TextLines

  /** A newline stays a newline; anything else becomes a space. */
  function Blanked(s: string): (r: string)
    ensures |r| == |s|
  {
    if s == "" then "" else [if s[0] == '\n' then '\n' else ' '] + Blanked(s[1..])
  }

  function StartsWith(s: string, p: string): bool { |p| <= |s| && s[..|p|] == p }

  // --- how long each token is; zero when there is none -------------------------------------------

  /** From inside `depth` open block comments to past the last close. */
  function BlockLen(s: string, depth: nat): (n: nat)
    ensures n <= |s|
    decreases |s|
  {
    if s == "" || depth == 0 then 0
    else if StartsWith(s, "/*") then 2 + BlockLen(s[2..], depth + 1)
    else if StartsWith(s, "*/") then 2 + BlockLen(s[2..], depth - 1)
    else 1 + BlockLen(s[1..], depth)
  }

  function HashLen(s: string): (n: nat)
    ensures n <= |s|
  {
    if s != "" && s[0] == '#' then 1 + HashLen(s[1..]) else 0
  }

  function Hashes(n: nat): (r: string)
    ensures |r| == n
  {
    if n == 0 then "" else "#" + Hashes(n - 1)
  }

  /** Past the first occurrence of `close`, or to the end. */
  function ThroughLen(s: string, close: string): (n: nat)
    requires close != ""
    ensures n <= |s|
  {
    if s == "" then 0
    else if StartsWith(s, close) then |close|
    else 1 + ThroughLen(s[1..], close)
  }

  /** How far the opening of a raw string reaches: `r` or `br`, hashes, a quote. */
  function RawOpenLen(s: string): (n: nat)
    ensures n <= |s|
    ensures n > 0 ==> n >= 2 && s[n - 1] == '"' && (s[0] == 'r' || s[0] == 'b')
  {
    var p := if StartsWith(s, "r") then 1 else if StartsWith(s, "br") then 2 else 0;
    if p == 0 then 0
    else
      var h := HashLen(s[p..]);
      if p + h < |s| && s[p + h] == '"' then p + h + 1 else 0
  }

  /** The hashes of an opening: what the closing quote must be followed by. */
  function RawHashes(s: string): nat {
    if StartsWith(s, "r") then HashLen(s[1..]) else if StartsWith(s, "br") then HashLen(s[2..]) else 0
  }

  /** From behind an opening quote to past the closing one; a backslash takes the next character along. */
  function StringLen(s: string): (n: nat)
    ensures n <= |s|
    ensures n == 0 ==> s == ""
  {
    if |s| < 2 then |s|
    else if s[0] == '\\' then 2 + StringLen(s[2..])
    else if s[0] == '"' then 1
    else 1 + StringLen(s[1..])
  }

  /** A character literal: one plain character, or a backslash and anything but a newline. */
  function CharLen(s: string): (n: nat)
    ensures n <= |s|
  {
    if |s| >= 4 && s[0] == '\'' && s[1] == '\\' && s[2] != '\n' && s[3] == '\'' then 4
    else if |s| >= 3 && s[0] == '\'' && s[1] != '\\' && s[1] != '\'' && s[2] == '\'' then 3
    else 0
  }

  /** How many characters the literal or comment at the head of s takes, tried in the scanner's order. */
  function TokenLen(s: string): (n: nat)
    ensures n <= |s|
  {
    if StartsWith(s, "//") then LineLen(s)
    else if StartsWith(s, "/*") then 2 + BlockLen(s[2..], 1)
    else if RawOpenLen(s) > 0 then RawOpenLen(s) + ThroughLen(s[RawOpenLen(s)..], "\"" + Hashes(RawHashes(s)))
    else if StartsWith(s, "\"") then 1 + StringLen(s[1..])
    else if StartsWith(s, "b\"") then 2 + StringLen(s[2..])
    else CharLen(s)
  }

  /** The masked source. */
  function Masked(s: string): (r: string)
    ensures |r| == |s|
  {
    if s == "" then ""
    else if TokenLen(s) > 0 then Blanked(s[..TokenLen(s)]) + Masked(s[TokenLen(s)..])
    else [s[0]] + Masked(s[1..])
  }

  // --- the scanner --------------------------------------------------------------------------------

  function Min(a: nat, b: nat): nat { if a < b then a else b }

  lemma {:induction false} BlankedSnoc(s: string, c: char)
    ensures Blanked(s + [c]) == Blanked(s) + [if c == '\n' then '\n' else ' ']
  {
    if s != "" {
      assert (s + [c])[1..] == s[1..] + [c];
      BlankedSnoc(s[1..], c);
    }
  }

  /** Overwrites a stretch of the output with blanks. */
  method BlankOut(out: array<char>, start: nat, end: nat)
    requires start <= end && start <= out.Length
    modifies out
    ensures var stop := Min(end, out.Length);
      out[..] == old(out[..start]) + Blanked(old(out[start..stop])) + old(out[stop..])
  {
    var stop := Min(end, out.Length);
    ghost var was := out[..];
    var k := start;
    while k < stop
      invariant start <= k <= stop
      invariant out[..start] == was[..start] && out[k..] == was[k..]
      invariant out[start..k] == Blanked(was[start..k])
    {
      assert out[k] == out[k..][0] == was[k..][0] == was[k];
      BlankedSnoc(was[start..k], was[k]);
      assert was[start..k + 1] == was[start..k] + [was[k]];
      if out[k] != '\n' {
        out[k] := ' ';
      }
      assert out[start..k + 1] == out[start..k] + [out[k]];
      assert out[k + 1..] == was[k..][1..];
      k := k + 1;
    }
    assert out[..] == out[..start] + out[start..k] + out[k..];
  }

  /** `src.find`, with the end standing for "not found". */
  method FindThrough(src: string, close: string, start: nat) returns (j: nat)
    requires close != "" && start <= |src|
    ensures j == start + ThroughLen(src[start..], close)
  {
    j := start;
    while j < |src|
      invariant start <= j <= |src| && j + ThroughLen(src[j..], close) == start + ThroughLen(src[start..], close)
    {
      assert src[j..][1..] == src[j + 1..];
      if StartsWith(src[j..], close) {
        return j + |close|;
      }
      j := j + 1;
    }
  }

  method LineEnd(src: string, start: nat) returns (j: nat)
    requires start <= |src|
    ensures j == start + LineLen(src[start..])
  {
    j := start;
    while j < |src| && src[j] != '\n'
      invariant start <= j <= |src| && j + LineLen(src[j..]) == start + LineLen(src[start..])
    {
      assert src[j..][1..] == src[j + 1..];
      j := j + 1;
    }
  }

  method BlockEnd(src: string, start: nat) returns (j: nat)
    requires start <= |src|
    ensures j == start + BlockLen(src[start..], 1)
  {
    hide BlockLen;
    j := start;
    var depth := 1;
    while j < |src| && depth > 0
      invariant start <= j <= |src| && depth >= 0
      invariant j + BlockLen(src[j..], depth) == start + BlockLen(src[start..], 1)
      decreases |src| - j
    {
      BlockStep(src, j, depth);
      if StartsWith(src[j..], "/*") {
        depth := depth + 1;
        j := j + 2;
      } else if StartsWith(src[j..], "*/") {
        depth := depth - 1;
        j := j + 2;
      } else {
        j := j + 1;
      }
    }
    BlockDone(src, j, depth);
  }

  lemma BlockStep(src: string, j: nat, depth: nat)
    requires j < |src| && depth > 0
    ensures StartsWith(src[j..], "/*") ==>
        j + 2 <= |src| && BlockLen(src[j..], depth) == 2 + BlockLen(src[j + 2..], depth + 1)
    ensures !StartsWith(src[j..], "/*") && StartsWith(src[j..], "*/") ==>
        j + 2 <= |src| && BlockLen(src[j..], depth) == 2 + BlockLen(src[j + 2..], depth - 1)
    ensures !StartsWith(src[j..], "/*") && !StartsWith(src[j..], "*/") ==>
        BlockLen(src[j..], depth) == 1 + BlockLen(src[j + 1..], depth)
  {
    var rest := src[j..];
    assert rest[1..] == src[j + 1..];
    if |rest| >= 2 { assert rest[2..] == src[j + 2..]; }
  }

  lemma BlockDone(src: string, j: nat, depth: nat)
    requires j <= |src| && (j == |src| || depth == 0)
    ensures BlockLen(src[j..], depth) == 0
  {
  }

  /** May run one past the end, when the last character is a backslash. */
  method StringEnd(src: string, start: nat) returns (j: nat)
    requires start <= |src|
    ensures Min(j, |src|) == start + StringLen(src[start..])
  {
    j := start;
    while j < |src|
      invariant start <= j <= |src| + 1
      invariant if j <= |src| then j + StringLen(src[j..]) == start + StringLen(src[start..])
                else |src| == start + StringLen(src[start..])
      decreases |src| + 1 - j
    {
      ghost var rest := src[j..];
      if src[j] == '\\' {
        assert |rest| >= 2 ==> rest[2..] == src[j + 2..];
        j := j + 2;
        continue;
      }
      if src[j] == '"' {
        return j + 1;
      }
      assert |rest| >= 2 ==> rest[1..] == src[j + 1..];
      j := j + 1;
    }
  }

  /** Where the token at i ends, if one starts there. */
  method TokenEnd(src: string, i: nat) returns (token: bool, j: nat)
    requires i < |src|
    ensures token <==> TokenLen(src[i..]) > 0
    ensures token ==> i < j && Min(j, |src|) == i + TokenLen(src[i..])
  {
    ghost var rest := src[i..];
    token, j := true, i;
    if StartsWith(src[i..], "//") {
      j := LineEnd(src, i);
      return;
    }
    if StartsWith(src[i..], "/*") {
      assert rest[2..] == src[i + 2..];
      j := BlockEnd(src, i + 2);
      return;
    }
    var open := RawOpenLen(src[i..]);
    if open > 0 {
      var close := "\"" + Hashes(RawHashes(src[i..]));
      assert rest[open..] == src[i + open..];
      j := FindThrough(src, close, i + open);
      return;
    }
    if src[i] == '"' {
      assert rest[1..] == src[i + 1..] && StartsWith(rest, "\"");
      j := StringEnd(src, i + 1);
      return;
    }
    if StartsWith(src[i..], "b\"") {
      assert rest[2..] == src[i + 2..] && !StartsWith(rest, "\"");
      j := StringEnd(src, i + 2);
      return;
    }
    assert !StartsWith(rest, "\"");
    token, j := CharLen(src[i..]) > 0, i + CharLen(src[i..]);
  }

  lemma DropDrop(s: string, i: nat, n: nat)
    requires i + n <= |s|
    ensures s[i..][n..] == s[i + n..]
  {
  }

  lemma SplitBehind(done: string, rest: string, n: nat)
    requires n <= |rest|
    ensures (done + rest)[..|done|] == done
    ensures (done + rest)[|done|..|done| + n] == rest[..n]
    ensures (done + rest)[|done| + n..] == rest[n..]
  {
  }

  lemma Regroup(a: string, b: string, c: string)
    ensures a + (b + c) == (a + b) + c
  {
  }

  /** What has been written is final, and the rest is still the source. */
  ghost predicate Progress(src: string, i: nat, done: string, out: string) {
    && i == |done| <= |src|
    && out == done + src[i..]
    && Masked(src) == done + Masked(src[i..])
  }

  /** One step writes `piece` for the first n characters of what is left. */
  lemma StepProgress(src: string, i: nat, done: string, was: string, n: nat, piece: string, out: string)
    requires Progress(src, i, done, was) && i + n <= |src| && |piece| == n
    requires Masked(src[i..]) == piece + Masked(src[i..][n..])
    requires out == was[..i] + piece + was[i + n..]
    ensures Progress(src, i + n, done + piece, out)
  {
    hide Masked;
    DropDrop(src, i, n);
    SplitBehind(done, src[i..], n);
    Regroup(done, piece, Masked(src[i + n..]));
  }

  lemma ProgressShape(src: string, i: nat, done: string, out: string)
    requires Progress(src, i, done, out)
    ensures i == |done| <= |src| && out == done + src[i..]
  {
  }

  lemma MaskedToken(s: string)
    requires TokenLen(s) > 0
    ensures s != "" && Masked(s) == Blanked(s[..TokenLen(s)]) + Masked(s[TokenLen(s)..])
  {
    hide TokenLen, Blanked;
  }

  lemma MaskedPlain(s: string)
    requires s != "" && TokenLen(s) == 0
    ensures Masked(s) == [s[0]] + Masked(s[1..])
  {
    hide TokenLen, Blanked;
  }

  /** A token, once blanked, is progress. */
  lemma TokenProgress(src: string, i: nat, done: string, was: string, stop: nat, out: string)
    requires i < |src| && Progress(src, i, done, was)
    requires TokenLen(src[i..]) > 0 && stop == i + TokenLen(src[i..]) <= |src| == |was|
    requires out == was[..i] + Blanked(was[i..stop]) + was[stop..]
    ensures Progress(src, stop, done + Blanked(src[i..][..stop - i]), out)
  {
    hide *;
    var rest, n := src[i..], stop - i;
    ProgressShape(src, i, done, was);
    SplitBehind(done, rest, n);
    MaskedToken(rest);
    StepProgress(src, i, done, was, n, Blanked(rest[..n]), out);
  }

  lemma PlainProgress(src: string, i: nat, done: string, out: string)
    requires i < |src| && Progress(src, i, done, out) && TokenLen(src[i..]) == 0
    ensures Progress(src, i + 1, done + [src[i]], out)
  {
    hide *;
    var rest := src[i..];
    ProgressShape(src, i, done, out);
    SplitBehind(done, rest, 1);
    MaskedPlain(rest);
    assert rest[..1] == [src[i]];
    assert out == out[..i] + out[i..i + 1] + out[i + 1..];
    StepProgress(src, i, done, out, 1, [src[i]], out);
  }

  lemma NothingWritten(src: string, out: string)
    requires out == src
    ensures Progress(src, 0, "", out)
  {
    assert src[0..] == src;
  }

  lemma AllWritten(src: string, done: string, out: string)
    requires Progress(src, |src|, done, out)
    ensures out == Masked(src)
  {
    assert src[|src|..] == "";
    assert Masked("") == "";
  }

  method Mask(src: string) returns (masked: string)
    ensures masked == Masked(src)
  {
    hide *;
    var out := new char[|src|](k requires 0 <= k < |src| => src[k]);
    NothingWritten(src, out[..]);
    ghost var done := "";
    var i, n := 0, |src|;
    while i < n
      invariant out.Length == n == |src|
      invariant i <= n ==> Progress(src, i, done, out[..])
      invariant i > n ==> Progress(src, n, done, out[..])
      decreases n + 1 - i
    {
      var token, j := TokenEnd(src, i);
      if token {
        ghost var was := out[..];
        ghost var stop := i + TokenLen(src[i..]);
        BlankOut(out, i, j);
        assert stop == if j < n then j else n by { MinIs(j, n); }
        TokenProgress(src, i, done, was, stop, out[..]);
        done := done + Blanked(src[i..][..stop - i]);
        i := j;
      } else {
        PlainProgress(src, i, done, out[..]);
        done := done + [src[i]];
        i := i + 1;
      }
    }
    AllWritten(src, done, out[..]);
    masked := out[..];
  }

  lemma MinIs(a: nat, b: nat)
    ensures Min(a, b) == if a < b then a else b
  {
  }
}
