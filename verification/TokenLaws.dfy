/** Where literals and comments end: the masker blanks each of them whole and goes on right behind it
    (scripts/panic-census.py:47-107). */
module TokenLaws {
  import opened RustMasking
  import opened TextLines

  // --- the forms ----------------------------------------------------------------------------------

  /** Plain characters and escaped pairs; no quote of its own, no backslash left over. */
  predicate StringBody(s: string) {
    || s == ""
    || (|s| >= 2 && s[0] == '\\' && StringBody(s[2..]))
    || (s[0] != '\\' && s[0] != '"' && StringBody(s[1..]))
  }

  /** Neither `/` + `*` nor `*` + `/` anywhere. */
  predicate NoSlashStar(s: string) {
    forall k | 0 <= k < |s| - 1 :: !(s[k] == '/' && s[k + 1] == '*') && !(s[k] == '*' && s[k + 1] == '/')
  }

  /** The inside of a block comment: text, then perhaps a whole comment and more of the same. */
  datatype Inside = Just(text: string) | Holding(text: string, comment: Inside, more: Inside)

  function InsideText(b: Inside): string {
    match b
    case Just(text) => text
    case Holding(text, comment, more) => text + "/*" + InsideText(comment) + "*/" + InsideText(more)
  }

  /** No text forms an opener or a closer, alone or with the character that follows it. */
  predicate WellNested(b: Inside) {
    match b
    case Just(text) => NoSlashStar(text + "*")
    case Holding(text, comment, more) => NoSlashStar(text + "/") && WellNested(comment) && WellNested(more)
  }

  predicate OccursAt(s: string, close: string, k: nat) {
    k + |close| <= |s| && s[k..k + |close|] == close
  }

  /** The closing sequence stands nowhere before the end of the body. */
  ghost predicate ClosesAtEnd(body: string, close: string) {
    forall k: nat | k < |body| :: !OccursAt(body + close, close, k)
  }

  ghost predicate RawBody(body: string, hashes: nat) { ClosesAtEnd(body, "\"" + Hashes(hashes)) }

  // --- lengths ------------------------------------------------------------------------------------

  lemma {:induction false} StringEnds(body: string, rest: string)
    requires StringBody(body)
    ensures StringLen(body + "\"" + rest) == |body| + 1
    ensures StringLen(body) == |body| && StringLen(body + "\\") == |body| + 1
  {
    var s := body + "\"" + rest;
    if body == "" {
      assert s == "\"" + rest && s[0] == '"';
      assert body + "\\" == "\\";
      assert rest != "" ==> |s| >= 2;
    } else {
      var n := if body[0] == '\\' then 2 else 1;
      StringEnds(body[n..], rest);
      assert s[n..] == body[n..] + "\"" + rest;
      assert (body + "\\")[n..] == body[n..] + "\\";
    }
  }

  lemma PlainStep(t: string, next: string, depth: nat)
    requires t != "" && depth > 0 && NoSlashStar(t + (if next == "" then "" else next[..1]))
    ensures BlockLen(t + next, depth) == 1 + BlockLen(t[1..] + next, depth)
  {
    var s, u := t + next, t + (if next == "" then "" else next[..1]);
    assert s[1..] == t[1..] + next;
    assert |u| >= 2 ==> s[0] == u[0] && s[1] == u[1];
    assert |s| >= 2 ==> |u| >= 2 && s[..2] == [s[0], s[1]];
  }

  lemma {:induction false} PlainSkipped(t: string, next: string, depth: nat)
    requires depth > 0 && NoSlashStar(t + (if next == "" then "" else next[..1]))
    ensures BlockLen(t + next, depth) == |t| + BlockLen(next, depth)
  {
    hide BlockLen;
    if t == "" {
      assert t + next == next;
    } else {
      PlainStep(t, next, depth);
      var tail := if next == "" then "" else next[..1];
      assert (t + tail)[1..] == t[1..] + tail;
      PlainSkipped(t[1..], next, depth);
    }
  }

  lemma OpensDeeper(s: string, depth: nat)
    requires depth > 0
    ensures BlockLen("/*" + s, depth) == 2 + BlockLen(s, depth + 1)
    ensures BlockLen("*/" + s, depth) == 2 + BlockLen(s, depth - 1)
  {
    assert ("/*" + s)[..2] == "/*" && ("/*" + s)[2..] == s;
    assert ("*/" + s)[..2] == "*/" && ("*/" + s)[2..] == s;
    assert "*/" != "/*" by { assert "*/"[0] != "/*"[0]; }
  }

  lemma {:induction false} BlockEnds(b: Inside, rest: string, depth: nat)
    requires WellNested(b) && depth > 0
    ensures BlockLen(InsideText(b) + "*/" + rest, depth) == |InsideText(b)| + 2 + BlockLen(rest, depth - 1)
  {
    hide BlockLen, NoSlashStar;
    match b
    case Just(text) =>
      assert ("*/" + rest)[..1] == "*";
      PlainSkipped(text, "*/" + rest, depth);
      OpensDeeper(rest, depth);
      assert text + "*/" + rest == text + ("*/" + rest);
    case Holding(text, comment, more) =>
      var behind := InsideText(more) + "*/" + rest;
      var inner := InsideText(comment) + "*/" + behind;
      assert ("/*" + inner)[..1] == "/";
      PlainSkipped(text, "/*" + inner, depth);
      OpensDeeper(inner, depth);
      BlockEnds(comment, behind, depth + 1);
      BlockEnds(more, rest, depth);
      assert InsideText(b) + "*/" + rest == text + ("/*" + inner);
  }

  lemma {:induction false} HashesCounted(n: nat, rest: string)
    requires rest == "" || rest[0] != '#'
    ensures HashLen(Hashes(n) + rest) == n
  {
    if n == 0 {
      assert Hashes(0) + rest == rest;
    } else {
      assert (Hashes(n) + rest)[1..] == Hashes(n - 1) + rest;
      HashesCounted(n - 1, rest);
    }
  }

  lemma OccursBehind(s: string, close: string, k: nat)
    requires s != "" && close != ""
    ensures OccursAt(s[1..], close, k) <==> OccursAt(s, close, k + 1)
  {
    if k + 1 + |close| <= |s| { assert s[1..][k..k + |close|] == s[k + 1..k + 1 + |close|]; }
  }

  lemma ThroughStep(s: string, close: string)
    requires s != "" && close != ""
    ensures ThroughLen(s, close) == if OccursAt(s, close, 0) then |close| else 1 + ThroughLen(s[1..], close)
  {
    if |close| <= |s| { assert s[..|close|] == s[0..0 + |close|]; }
  }

  lemma {:induction false} ThroughEnds(body: string, close: string, rest: string)
    requires close != "" && ClosesAtEnd(body, close)
    ensures ThroughLen(body + close + rest, close) == |body| + |close|
  {
    hide ThroughLen;
    var s := body + close + rest;
    ThroughStep(s, close);
    assert s[0..0 + |close|] == (body + close)[0..0 + |close|];
    if body != "" {
      assert !OccursAt(body + close, close, 0);
      assert s[1..] == body[1..] + close + rest && (body + close)[1..] == body[1..] + close;
      forall k: nat | k < |body[1..]| ensures !OccursAt(body[1..] + close, close, k) {
        OccursBehind(body + close, close, k);
      }
      ThroughEnds(body[1..], close, rest);
    }
  }

  lemma {:induction false} ThroughNothing(body: string, close: string)
    requires close != "" && forall k: nat | k < |body| :: !OccursAt(body, close, k)
    ensures ThroughLen(body, close) == |body|
  {
    if body != "" {
      ThroughStep(body, close);
      hide ThroughLen;
      assert !OccursAt(body, close, 0);
      forall k: nat | k < |body[1..]| ensures !OccursAt(body[1..], close, k) { OccursBehind(body, close, k); }
      ThroughNothing(body[1..], close);
    }
  }

  // --- each form is blanked whole -----------------------------------------------------------------

  lemma TokenBlanked(token: string, rest: string)
    requires token != "" && TokenLen(token + rest) == |token|
    ensures Masked(token + rest) == Blanked(token) + Masked(rest)
  {
    var s := token + rest;
    MaskedToken(s);
    hide TokenLen, Masked, Blanked;
    assert s[..|token|] == token && s[|token|..] == rest;
  }

  lemma LineCommentBlanked(body: string, rest: string)
    requires OneLine(body) && (rest == "" || rest[0] == '\n')
    ensures Masked("//" + body + rest) == Blanked("//" + body) + Masked(rest)
  {
    var token := "//" + body;
    assert (token + rest)[..2] == "//";
    LineLenOf(token, rest);
    TokenBlanked(token, rest);
  }

  lemma BlockCommentBlanked(b: Inside, rest: string)
    requires WellNested(b)
    ensures var token := "/*" + InsideText(b) + "*/"; Masked(token + rest) == Blanked(token) + Masked(rest)
  {
    var token := "/*" + InsideText(b) + "*/";
    var s := token + rest;
    assert s[..2] == "/*" && s[2..] == InsideText(b) + "*/" + rest;
    assert "/*"[1] != "//"[1];
    BlockEnds(b, rest, 1);
    hide BlockLen, InsideText, WellNested;
    assert BlockLen(rest, 0) == 0 by { NoDepth(rest); }
    TokenBlanked(token, rest);
  }

  lemma NoDepth(s: string)
    ensures BlockLen(s, 0) == 0
  {
  }

  lemma QuoteOpens(s: string)
    requires s != "" && s[0] == '"'
    ensures TokenLen(s) == 1 + StringLen(s[1..])
  {
    hide StringLen, BlockLen, LineLen, ThroughLen, Hashes, HashLen;
    assert s[..1] == "\"";
    assert |s| >= 2 ==> s[..2][0] == '"';
  }

  lemma ByteQuoteOpens(s: string)
    requires |s| >= 2 && s[0] == 'b' && s[1] == '"'
    ensures TokenLen(s) == 2 + StringLen(s[2..])
  {
    hide StringLen, BlockLen, LineLen, ThroughLen, Hashes, HashLen;
    assert s[..1] == "b" && s[..2] == "b\"";
    assert "b\"" != "br" by { assert "b\""[1] != "br"[1]; }
    assert "b\""[0] != "//"[0] && "b\""[0] != "/*"[0];
  }

  lemma StringBlanked(body: string, rest: string)
    requires StringBody(body)
    ensures Masked("\"" + body + "\"" + rest) == Blanked("\"" + body + "\"") + Masked(rest)
    ensures Masked("b\"" + body + "\"" + rest) == Blanked("b\"" + body + "\"") + Masked(rest)
  {
    StringEnds(body, rest);
    hide StringLen, StringBody, Masked, Blanked, TokenLen;
    var s, t := "\"" + body + "\"" + rest, "b\"" + body + "\"" + rest;
    assert s[1..] == body + "\"" + rest == t[2..];
    QuoteOpens(s);
    ByteQuoteOpens(t);
    TokenBlanked("\"" + body + "\"", rest);
    TokenBlanked("b\"" + body + "\"", rest);
  }

  /** The opening of a raw string. */
  function RawOpen(byte: bool, hashes: nat): string {
    (if byte then "br" else "r") + Hashes(hashes) + "\""
  }

  lemma RawOpens(byte: bool, hashes: nat, rest: string)
    ensures var s := RawOpen(byte, hashes) + rest;
      && RawOpenLen(s) == |RawOpen(byte, hashes)| && RawHashes(s) == hashes
      && !StartsWith(s, "//") && !StartsWith(s, "/*")
  {
    var open := RawOpen(byte, hashes);
    var s, p := open + rest, if byte then 2 else 1;
    var behind := "\"" + rest;
    assert s[p..] == Hashes(hashes) + behind && s[p..][hashes..] == behind;
    HashesCounted(hashes, behind);
    assert s[..1] == (if byte then "b" else "r");
    assert byte ==> s[..2] == "br";
    assert "b" != "r" by { assert "b"[0] != "r"[0]; }
    assert s[p + hashes] == '"';
    assert s[..2][0] != '/';
  }

  lemma RawTokenLen(byte: bool, hashes: nat, more: string)
    ensures var open := RawOpen(byte, hashes);
      TokenLen(open + more) == |open| + ThroughLen(more, "\"" + Hashes(hashes))
  {
    var open := RawOpen(byte, hashes);
    RawOpens(byte, hashes, more);
    assert (open + more)[|open|..] == more && |open| > 0;
    hide RawOpenLen, RawHashes, ThroughLen, RawOpen, BlockLen, LineLen, StringLen;
  }

  lemma RawBodyIs(body: string, hashes: nat)
    requires RawBody(body, hashes)
    ensures ClosesAtEnd(body, "\"" + Hashes(hashes))
  {
  }

  lemma RawStringBlanked(byte: bool, hashes: nat, body: string, rest: string)
    requires RawBody(body, hashes)
    ensures var token := RawOpen(byte, hashes) + body + "\"" + Hashes(hashes);
      Masked(token + rest) == Blanked(token) + Masked(rest)
  {
    var open, close := RawOpen(byte, hashes), "\"" + Hashes(hashes);
    var token := open + body + "\"" + Hashes(hashes);
    hide *;
    RawBodyIs(body, hashes);
    ThroughEnds(body, close, rest);
    RawTokenLen(byte, hashes, body + close + rest);
    assert token == open + (body + close) && |token| == |open| + |body| + |close| && |close| > 0;
    assert token + rest == open + (body + close + rest);
    TokenBlanked(token, rest);
  }

  lemma CharBlanked(c: char, rest: string)
    ensures c != '\\' && c != '\'' ==> Masked("'" + [c] + "'" + rest) == Blanked("'" + [c] + "'") + Masked(rest)
    ensures c != '\n' ==> Masked("'\\" + [c] + "'" + rest) == Blanked("'\\" + [c] + "'") + Masked(rest)
  {
    var s, t := "'" + [c] + "'" + rest, "'\\" + [c] + "'" + rest;
    QuoteIsNoOther(s);
    QuoteIsNoOther(t);
    hide TokenLen, Masked, Blanked;
    if c != '\\' && c != '\'' { TokenBlanked("'" + [c] + "'", rest); }
    if c != '\n' { TokenBlanked("'\\" + [c] + "'", rest); }
  }

  lemma QuoteIsNoOther(s: string)
    requires |s| >= 2 && s[0] == '\''
    ensures TokenLen(s) == CharLen(s)
  {
    hide BlockLen, ThroughLen, Hashes, RawHashes, LineLen, StringLen, CharLen;
    assert s[..2] == [s[0], s[1]] && s[..1] == [s[0]];
  }

  // --- tokens that never end ----------------------------------------------------------------------

  lemma NothingMasked()
    ensures Masked("") == ""
  {
  }

  lemma WholeBlanked(s: string)
    requires s != "" && TokenLen(s) == |s|
    ensures Masked(s) == Blanked(s)
  {
    hide *;
    assert s + "" == s;
    TokenBlanked(s, "");
    NothingMasked();
    assert Blanked(s) + "" == Blanked(s);
  }

  /** What follows an opening quote and never closes takes the rest of the source. */
  lemma OpenString(tail: string)
    requires StringLen(tail) == |tail|
    ensures Masked("\"" + tail) == Blanked("\"" + tail) && Masked("b\"" + tail) == Blanked("b\"" + tail)
  {
    hide *;
    var s, t := "\"" + tail, "b\"" + tail;
    assert s[1..] == tail == t[2..];
    QuoteOpens(s);
    ByteQuoteOpens(t);
    WholeBlanked(s);
    WholeBlanked(t);
  }

  /** So an unclosed string is blanked to the end, also when the source ends in a backslash. */
  lemma UnclosedString(body: string)
    requires StringBody(body)
    ensures Masked("\"" + body) == Blanked("\"" + body) && Masked("b\"" + body) == Blanked("b\"" + body)
    ensures Masked("\"" + (body + "\\")) == Blanked("\"" + (body + "\\"))
  {
    hide *;
    StringEnds(body, "");
    OpenString(body);
    OpenString(body + "\\");
  }

  lemma BlockOpens(text: string)
    ensures TokenLen("/*" + text) == 2 + BlockLen(text, 1)
  {
    hide BlockLen, ThroughLen, Hashes, RawHashes, LineLen, StringLen, RawOpenLen;
    var s := "/*" + text;
    assert s[..2] == "/*" && s[2..] == text && "/*"[1] != "//"[1];
  }

  lemma NothingLeft(depth: nat)
    ensures BlockLen("", depth) == 0
  {
  }

  /** And an unclosed block comment, behind whatever it has closed inside. */
  lemma UnclosedBlock(text: string)
    requires NoSlashStar(text)
    ensures Masked("/*" + text) == Blanked("/*" + text)
  {
    hide *;
    assert text + "" == text;
    PlainSkipped(text, "", 1);
    NothingLeft(1);
    BlockOpens(text);
    WholeBlanked("/*" + text);
  }

  /** And an unclosed raw string. */
  lemma UnclosedRaw(byte: bool, hashes: nat, body: string)
    requires forall k: nat | k < |body| :: !OccursAt(body, "\"" + Hashes(hashes), k)
    ensures Masked(RawOpen(byte, hashes) + body) == Blanked(RawOpen(byte, hashes) + body)
  {
    var open := RawOpen(byte, hashes);
    assert |open| > 0;
    hide *;
    ThroughNothing(body, "\"" + Hashes(hashes));
    RawTokenLen(byte, hashes, body);
    WholeBlanked(open + body);
  }

  // --- where a token starts -----------------------------------------------------------------------

  /** One of the scanner's forms opens here. */
  ghost predicate Starts(s: string) {
    || (|s| >= 2 && s[0] == '/' && (s[1] == '/' || s[1] == '*'))
    || (|s| >= 1 && s[0] == '"')
    || (|s| >= 2 && s[0] == 'b' && s[1] == '"')
    || (exists byte, n :: RawOpen(byte, n) <= s)
    || (|s| >= 3 && s[0] == '\'' && s[1] != '\\' && s[1] != '\'' && s[2] == '\'')
    || (|s| >= 4 && s[0] == '\'' && s[1] == '\\' && s[2] != '\n' && s[3] == '\'')
  }

  lemma {:induction false} HashesStand(s: string)
    ensures s[..HashLen(s)] == Hashes(HashLen(s))
  {
    if s != "" && s[0] == '#' {
      HashesStand(s[1..]);
      var n := HashLen(s[1..]);
      assert s[..n + 1] == "#" + s[1..][..n];
    }
  }

  lemma RawStartsIff(s: string)
    ensures RawOpenLen(s) > 0 <==> exists byte, n :: RawOpen(byte, n) <= s
  {
    forall byte, n | RawOpen(byte, n) <= s ensures RawOpenLen(s) > 0 {
      var open := RawOpen(byte, n);
      assert s == open + s[|open|..];
      RawOpens(byte, n, s[|open|..]);
    }
    if RawOpenLen(s) > 0 {
      var byte := !StartsWith(s, "r");
      var p := if byte then 2 else 1;
      var n := HashLen(s[p..]);
      HashesStand(s[p..]);
      assert s[..p] == (if byte then "br" else "r");
      assert s[..p + n + 1] == s[..p] + s[p..][..n] + [s[p + n]];
      assert RawOpen(byte, n) == s[..p + n + 1];
    }
  }

  lemma StartsWithTwo(s: string, p: string)
    requires |p| == 2
    ensures StartsWith(s, p) <==> |s| >= 2 && s[0] == p[0] && s[1] == p[1]
  {
    if |s| >= 2 { assert s[..2] == [s[0], s[1]] && p == [p[0], p[1]]; }
  }

  lemma StartsWithOne(s: string, p: string)
    requires |p| == 1
    ensures StartsWith(s, p) <==> |s| >= 1 && s[0] == p[0]
  {
    if |s| >= 1 { assert s[..1] == [s[0]] && p == [p[0]]; }
  }

  lemma LineTakesSome(s: string)
    requires s != "" && s[0] != '\n'
    ensures LineLen(s) > 0
  {
  }

  lemma CharStartsIff(s: string)
    ensures CharLen(s) > 0 <==>
      || (|s| >= 3 && s[0] == '\'' && s[1] != '\\' && s[1] != '\'' && s[2] == '\'')
      || (|s| >= 4 && s[0] == '\'' && s[1] == '\\' && s[2] != '\n' && s[3] == '\'')
  {
  }

  /** The scanner's branches, without their lengths. */
  lemma TokenStartsIff(s: string)
    ensures TokenLen(s) > 0 <==>
      || (StartsWith(s, "//") && LineLen(s) > 0) || StartsWith(s, "/*") || RawOpenLen(s) > 0
      || StartsWith(s, "\"") || StartsWith(s, "b\"") || CharLen(s) > 0
  {
    hide BlockLen, ThroughLen, Hashes, RawHashes, LineLen, StringLen, RawOpenLen, CharLen;
    StartsWithTwo(s, "//");
    StartsWithTwo(s, "/*");
    StartsWithTwo(s, "b\"");
    StartsWithOne(s, "\"");
    hide StartsWith;
    if s != "" && s[0] == '/' {
      LineTakesSome(s);
      RawNeverOpensWith(s);
    }
  }

  lemma RawNeverOpensWith(s: string)
    requires s != "" && s[0] == '/'
    ensures RawOpenLen(s) == 0 && CharLen(s) == 0
  {
    hide HashLen;
  }

  /** Main result: a character is kept, and the scanner goes on behind it, exactly when no literal and no
      comment opens there; a lifetime is kept for that reason. */
  lemma KeptIff(s: string)
    requires s != ""
    ensures TokenLen(s) == 0 <==> !Starts(s)
    ensures !Starts(s) ==> Masked(s) == [s[0]] + Masked(s[1..])
  {
    hide LineLen, RawOpenLen, RawOpen, StartsWith, TokenLen, CharLen, Masked;
    TokenStartsIff(s);
    RawStartsIff(s);
    CharStartsIff(s);
    StartsWithTwo(s, "//");
    StartsWithTwo(s, "/*");
    StartsWithTwo(s, "b\"");
    StartsWithOne(s, "\"");
    if s[0] == '/' { LineTakesSome(s); }
    if TokenLen(s) == 0 { MaskedPlain(s); }
  }

  lemma TickStartsNothingElse(s: string)
    requires |s| >= 2 && s[0] == '\'' && s[1] != '\\' && (|s| == 2 || s[2] != '\'')
    ensures !Starts(s)
  {
    forall byte, n ensures !(RawOpen(byte, n) <= s) { assert RawOpen(byte, n)[0] != '\''; }
  }

  /** A tick, and a name that no second tick closes. */
  lemma LifetimeKept(name: char, rest: string)
    requires name != '\\' && (rest == "" || rest[0] != '\'')
    ensures Masked("'" + [name] + rest) == "'" + Masked([name] + rest)
  {
    hide *;
    var s := "'" + [name] + rest;
    assert s[0] == '\'' && s[1..] == [name] + rest && (|s| > 2 ==> s[2] == rest[0]);
    TickStartsNothingElse(s);
    KeptIff(s);
    assert [s[0]] == "'";
  }

  // --- a whole source -----------------------------------------------------------------------------

  /** A character of code, or a literal or comment. */
  datatype Piece =
    | Code(c: char)
    | LineComment(body: string)
    | BlockComment(inside: Inside)
    | Text(byte: bool, body: string)
    | RawText(byte: bool, hashes: nat, body: string)
    | Character(escaped: bool, c: char)

  function PieceText(p: Piece): string {
    match p
    case Code(c) => [c]
    case LineComment(body) => "//" + body
    case BlockComment(inside) => "/*" + InsideText(inside) + "*/"
    case Text(byte, body) => (if byte then "b\"" else "\"") + body + "\""
    case RawText(byte, hashes, body) => RawOpen(byte, hashes) + body + "\"" + Hashes(hashes)
    case Character(escaped, c) => (if escaped then "'\\" else "'") + [c] + "'"
  }

  /** The piece is well formed, and in front of this rest it is what it says. */
  ghost predicate Placed(p: Piece, rest: string) {
    match p
    case Code(c) => !Starts([c] + rest)
    case LineComment(body) => OneLine(body) && (rest == "" || rest[0] == '\n')
    case BlockComment(inside) => WellNested(inside)
    case Text(_, body) => StringBody(body)
    case RawText(_, hashes, body) => RawBody(body, hashes)
    case Character(escaped, c) => if escaped then c != '\n' else c != '\\' && c != '\''
  }

  /** Code stands, everything else is blank. */
  function PieceMask(p: Piece): string {
    if p.Code? then [p.c] else Blanked(PieceText(p))
  }

  lemma PieceMasked(p: Piece, rest: string)
    requires Placed(p, rest)
    ensures Masked(PieceText(p) + rest) == PieceMask(p) + Masked(rest)
  {
    hide Masked, Blanked, Starts, StringBody, RawBody, WellNested, OneLine, InsideText, RawOpen;
    match p
    case Code(c) => KeptIff([c] + rest);
    case LineComment(body) => LineCommentBlanked(body, rest);
    case BlockComment(inside) => BlockCommentBlanked(inside, rest);
    case Text(byte, body) => StringBlanked(body, rest);
    case RawText(byte, hashes, body) => RawStringBlanked(byte, hashes, body, rest);
    case Character(escaped, c) => CharBlanked(c, rest);
  }

  function SourceOf(ps: seq<Piece>): string {
    if ps == [] then "" else PieceText(ps[0]) + SourceOf(ps[1..])
  }

  ghost predicate AllPlaced(ps: seq<Piece>) {
    ps == [] || (Placed(ps[0], SourceOf(ps[1..])) && AllPlaced(ps[1..]))
  }

  function MaskOf(ps: seq<Piece>): string {
    if ps == [] then "" else PieceMask(ps[0]) + MaskOf(ps[1..])
  }

  /** Main result: of a source made of such pieces, in any order, exactly the code is kept. */
  lemma {:induction false} MaskKeepsExactlyTheCode(ps: seq<Piece>)
    requires AllPlaced(ps)
    ensures Masked(SourceOf(ps)) == MaskOf(ps)
  {
    hide Masked, PieceText, PieceMask, Placed;
    if ps == [] {
      NothingMasked();
    } else {
      MaskKeepsExactlyTheCode(ps[1..]);
      PieceMasked(ps[0], SourceOf(ps[1..]));
    }
  }
}
