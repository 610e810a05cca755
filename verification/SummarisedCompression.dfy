/** Compression that puts a summary where the dropped turns were
    (packages/router-core/src/context-compress.ts:181-252). */
module SummarisedCompression {
  import opened CompressionLaws
  import opened ContextCompression
  import opened Domain

  const SUMMARY_LABEL := "Summary of the earlier part of this conversation:"

  /** What `trim` removes: the white space and line terminators of ECMAScript. */
  predicate IsSpace(c: char) {
    || '\t' <= c <= '\r' || c == ' ' || c == '\U{A0}' || c == '\U{1680}' || '\U{2000}' <= c <= '\U{200A}'
    || c == '\U{2028}' || c == '\U{2029}' || c == '\U{202F}' || c == '\U{205F}' || c == '\U{3000}' || c == '\U{FEFF}'
  }

  function TrimStart(s: string): string {
    if s != "" && IsSpace(s[0]) then TrimStart(s[1..]) else s
  }

  function TrimEnd(s: string): string {
    if s != "" && IsSpace(s[|s| - 1]) then TrimEnd(s[..|s| - 1]) else s
  }

  function Trim(s: string): string { TrimEnd(TrimStart(s)) }

  /** The injected summariser; `None` is an exception, or an answer that is no string. */
  class Summariser {
    const answer: seq<ChatMessage> -> Option<string>
    var calls: seq<seq<ChatMessage>>

    constructor (answer: seq<ChatMessage> -> Option<string>)
      ensures calls == []
    {
      this.answer, calls := answer, [];
    }

    method Summarise(dropped: seq<ChatMessage>) returns (summary: Option<string>)
      modifies this
      ensures calls == old(calls) + [dropped] && summary == answer(dropped)
    {
      calls := calls + [dropped];
      summary := answer(dropped);
    }
  }

  /** The text worth publishing, if the summariser is asked and gives one. */
  function SummaryText(base: CompressResult, answer: seq<ChatMessage> -> Option<string>): Option<string> {
    if base.droppedMessages == [] then None
    else
      match answer(base.droppedMessages)
      case None => None
      case Some(s) => if Trim(s) == "" then None else Some(Trim(s))
  }

  /** The code points `trim` removes. */
  predicate White(c: char) {
    c as int in {
      0x09, 0x0A, 0x0B, 0x0C, 0x0D, 0x20, 0xA0, 0x1680, 0x2000, 0x2001, 0x2002, 0x2003, 0x2004, 0x2005, 0x2006, 0x2007,
      0x2008, 0x2009, 0x200A, 0x2028, 0x2029, 0x202F, 0x205F, 0x3000, 0xFEFF}
  }

  predicate AllWhite(s: string) {
    forall k | 0 <= k < |s| :: White(s[k])
  }

  /** `t` is `s` without the white space at its ends. */
  ghost predicate IsInside(s: string, t: string) {
    exists a: nat :: a + |t| <= |s| && t == s[a..a + |t|] && AllWhite(s[..a]) && AllWhite(s[a + |t|..])
                     && (t != "" ==> !White(t[0]) && !White(t[|t| - 1]))
  }

  lemma SpaceIs(c: char)
    ensures IsSpace(c) <==> White(c)
  {
  }

  lemma {:induction false} TrimStartIs(s: string)
    ensures var t := TrimStart(s); var a := |s| - |t|;
      a >= 0 && t == s[a..] && AllWhite(s[..a]) && (t != "" ==> !White(t[0]))
  {
    if s != "" { SpaceIs(s[0]); }
    hide IsSpace, White;
    if s != "" && IsSpace(s[0]) {
      TrimStartIs(s[1..]);
      assert s[..|s| - |TrimStart(s)|] == [s[0]] + s[1..][..|s| - |TrimStart(s)| - 1];
    }
  }

  lemma {:induction false} TrimEndIs(s: string)
    ensures var t := TrimEnd(s);
      |t| <= |s| && t == s[..|t|] && AllWhite(s[|t|..]) && (t != "" ==> !White(t[|t| - 1]))
  {
    if s != "" { SpaceIs(s[|s| - 1]); }
    hide IsSpace, White;
    if s != "" && IsSpace(s[|s| - 1]) {
      TrimEndIs(s[..|s| - 1]);
      assert s[|TrimEnd(s)|..] == s[..|s| - 1][|TrimEnd(s)|..] + [s[|s| - 1]];
    }
  }

  lemma TrimIs(s: string)
    ensures IsInside(s, Trim(s))
  {
    hide IsSpace, White, TrimStart, TrimEnd;
    TrimStartIs(s);
    var inner := TrimStart(s);
    TrimEndIs(inner);
    var a, t := |s| - |inner|, Trim(s);
    assert s[a..a + |t|] == t && s[a + |t|..] == inner[|t|..];
  }

  lemma InsideIsUnique(s: string, t: string, u: string)
    requires IsInside(s, t) && IsInside(s, u)
    ensures t == u
  {
    hide White, IsInside;
    var a := StartOfInside(s, t);
    var b := StartOfInside(s, u);
  }

  /** Where the inside starts, and that everything around it is white. */
  lemma StartOfInside(s: string, t: string) returns (a: nat)
    requires IsInside(s, t)
    ensures a + |t| <= |s| && t == s[a..a + |t|]
    ensures forall k | 0 <= k < a || a + |t| <= k < |s| :: White(s[k])
    ensures t != "" ==> !White(s[a]) && !White(s[a + |t| - 1])
  {
    hide White;
    a :| a + |t| <= |s| && t == s[a..a + |t|] && AllWhite(s[..a]) && AllWhite(s[a + |t|..])
         && (t != "" ==> !White(t[0]) && !White(t[|t| - 1]));
    WhiteAround(s, a, t);
    assert t != "" ==> t[0] == s[a] && t[|t| - 1] == s[a + |t| - 1];
  }

  lemma WhiteAround(s: string, a: nat, t: string)
    requires a + |t| <= |s| && AllWhite(s[..a]) && AllWhite(s[a + |t|..])
    ensures forall k | 0 <= k < a || a + |t| <= k < |s| :: White(s[k])
  {
    forall k | a + |t| <= k < |s| ensures White(s[k]) { assert s[a + |t|..][k - a - |t|] == s[k]; }
    forall k | 0 <= k < a ensures White(s[k]) { assert s[..a][k] == s[k]; }
  }

  /** A summary is published exactly when turns were dropped, the summariser answered for them, and something is
      left of its answer without the white space at its ends; that is its text. */
  lemma SummaryTextIs(base: CompressResult, answer: seq<ChatMessage> -> Option<string>, text: string)
    ensures SummaryText(base, answer) == Some(text) <==>
      && base.droppedMessages != [] && answer(base.droppedMessages).Some?
      && text != "" && IsInside(answer(base.droppedMessages).value, text)
  {
    hide Trim, IsInside;
    if base.droppedMessages != [] && answer(base.droppedMessages).Some? {
      var s := answer(base.droppedMessages).value;
      TrimIs(s);
      if IsInside(s, text) { InsideIsUnique(s, text, Trim(s)); }
    }
  }

  /** The messages whose object is not among the kept ones. */
  function Missing(messages: seq<ChatMessage>, kept: seq<ChatMessage>): seq<ChatMessage> {
    if messages == [] then []
    else
      var last := messages[|messages| - 1];
      Missing(messages[..|messages| - 1], kept) + (if last in kept then [] else [last])
  }

  function WithSummary(messages: seq<ChatMessage>, summary: ChatMessage): seq<ChatMessage> {
    messages[..Leading(messages)] + [summary] + messages[Leading(messages)..]
  }

  ghost predicate Refitted(messages: seq<ChatMessage>, budget: int, base: CompressResult, summary: ChatMessage,
                           final: CompressResult, r: CompressResult)
  {
    && IsTruncation(WithSummary(base.messages, summary), budget, final)
    && r.messages == final.messages && r.droppedMessages == Missing(messages, final.messages)
    && r.dropped == |r.droppedMessages|
    && r.beforeTokens == base.beforeTokens && r.afterTokens == final.afterTokens && r.budget == budget && r.compressed
  }

  method DropKept(messages: seq<ChatMessage>, kept: seq<ChatMessage>) returns (dropped: seq<ChatMessage>)
    ensures dropped == Missing(messages, kept)
  {
    dropped := [];
    var n := 0;
    while n < |messages|
      invariant n <= |messages| && dropped == Missing(messages[..n], kept)
    {
      assert messages[..n + 1][..n] == messages[..n];
      if messages[n] !in kept {
        dropped := dropped + [messages[n]];
      }
      n := n + 1;
    }
    assert messages[..n] == messages;
  }

  /** `summaryRef` is the identity the new message object gets. */
  method CompressWithSummary(messages: seq<ChatMessage>, budget: int, summariser: Summariser, summaryRef: nat)
    returns (r: CompressResult, ghost base: CompressResult, ghost final: CompressResult)
    requires forall m | m in messages :: m.ref != summaryRef
    modifies summariser
    ensures IsTruncation(messages, budget, base)
    ensures summariser.calls
      == old(summariser.calls) + (if base.droppedMessages == [] then [] else [base.droppedMessages])
    ensures SummaryText(base, summariser.answer).None? ==> r == base
    ensures SummaryText(base, summariser.answer).Some? ==>
      var told := "Summary of the earlier part of this conversation:\n" + SummaryText(base, summariser.answer).value;
      Refitted(messages, budget, base, ChatMessage(summaryRef, System, told), final, r)
  {
    var tier1 := CompressMessages(messages, budget);
    base, final := tier1, tier1;
    hide IsTruncation, Trim;
    if !tier1.compressed || |tier1.droppedMessages| == 0 {
      assert tier1.droppedMessages == [] by { TruncationSaysSo(messages, budget, tier1); }
      return tier1, base, final;
    }
    var summary := summariser.Summarise(tier1.droppedMessages);
    if summary.None? {
      return tier1, base, final;
    }
    var text := Trim(summary.value);
    if text == "" {
      return tier1, base, final;
    }
    var prefix, rest := SplitSystem(tier1.messages);
    var summaryMsg := ChatMessage(summaryRef, System, SUMMARY_LABEL + "\n" + text);
    LabelIs(text);
    var refit := CompressMessages(prefix + [summaryMsg] + rest, budget);
    final := refit;
    var dropped := DropKept(messages, refit.messages);
    r := CompressResult(refit.messages, |dropped|, dropped, tier1.beforeTokens, refit.afterTokens, budget, true);
  }

  lemma LabelIs(text: string)
    ensures SUMMARY_LABEL + "\n" + text == "Summary of the earlier part of this conversation:\n" + text
  {
    assert SUMMARY_LABEL + "\n" == "Summary of the earlier part of this conversation:\n";
  }

  lemma TruncationSaysSo(messages: seq<ChatMessage>, budget: int, r: CompressResult)
    requires IsTruncation(messages, budget, r)
    ensures r.compressed <==> r.droppedMessages != []
  {
  }

  // --- what the summarised conversation is -------------------------------------------------------

  /** The system prefix, the summary, then everything from position n of the original on. */
  function SummaryFrom(messages: seq<ChatMessage>, summary: ChatMessage, n: int): (r: seq<ChatMessage>)
    requires Leading(messages) <= n <= |messages|
    ensures |r| == Leading(messages) + 1 + |messages| - n
  {
    messages[..Leading(messages)] + [summary] + messages[n..]
  }

  lemma WithSummaryCut(messages: seq<ChatMessage>, summary: ChatMessage, n: int)
    requires IsBoundary(messages, n) && Leading(messages) < n
    ensures WithSummary(From(messages, n), summary) == SummaryFrom(messages, summary, n)
  {
    CutConversation(messages, n, n);
    var lead, kept := Leading(messages), From(messages, n);
    hide Leading;
    assert kept[lead..] == messages[n..] && kept[..lead] == messages[..lead];
  }

  lemma SummaryLeading(messages: seq<ChatMessage>, summary: ChatMessage, n: int)
    requires IsBoundary(messages, n) && Leading(messages) < n && summary.role == System
    ensures Leading(SummaryFrom(messages, summary, n)) == Leading(messages) + 1
  {
    var w, lead := SummaryFrom(messages, summary, n), Leading(messages);
    assert w[lead + 1] == messages[n];
    LeadingIsTheRun(messages);
    forall k | 0 <= k <= lead ensures w[k].role == System { assert w[k] == if k < lead then messages[k] else summary; }
    LeadingIs(w, lead + 1);
    hide Leading;
  }

  lemma SummaryFromAgain(messages: seq<ChatMessage>, summary: ChatMessage, n: int, m: int)
    requires IsBoundary(messages, n) && Leading(messages) < n && summary.role == System
    requires Leading(messages) + 1 <= m <= |SummaryFrom(messages, summary, n)|
    ensures Leading(SummaryFrom(messages, summary, n)) == Leading(messages) + 1
    ensures From(SummaryFrom(messages, summary, n), m) == SummaryFrom(messages, summary, m + n - Leading(messages) - 1)
  {
    SummaryLeading(messages, summary, n);
    hide Leading;
    var w, lead := SummaryFrom(messages, summary, n), Leading(messages);
    assert w[m..] == messages[m + n - lead - 1..];
    assert w[..lead + 1] == messages[..lead] + [summary];
  }

  lemma SummaryBoundary(messages: seq<ChatMessage>, summary: ChatMessage, n: int, m: int)
    requires IsBoundary(messages, n) && Leading(messages) < n && summary.role == System
    ensures var lead := Leading(messages);
      IsBoundary(SummaryFrom(messages, summary, n), m) <==> lead + 1 <= m && IsBoundary(messages, m + n - lead - 1)
  {
    SummaryLeading(messages, summary, n);
    var w, lead := SummaryFrom(messages, summary, n), Leading(messages);
    hide Leading;
    if lead + 1 <= m < |w| {
      assert w[m] == messages[m + n - lead - 1];
    }
  }

  lemma SummaryFits(messages: seq<ChatMessage>, budget: int, summary: ChatMessage, n: int, m: int)
    requires IsBoundary(messages, n) && Leading(messages) < n && summary.role == System
    requires n <= m <= |messages|
    ensures Fits(SummaryFrom(messages, summary, n), m - n + Leading(messages) + 1, budget)
      <==> Cost(SummaryFrom(messages, summary, m)) <= budget
  {
    hide Leading, Cost, SummaryFrom, From;
    SummaryFromAgain(messages, summary, n, m - n + Leading(messages) + 1);
  }

  /** The suffix kept behind the summary: a whole-turn suffix no longer than Tier 1's, the longest of
      those that still fit with the summary, or the newest turn. */
  ghost predicate SummaryCut(messages: seq<ChatMessage>, budget: int, summary: ChatMessage, tier1: int, n: int) {
    && tier1 <= n && IsBoundary(messages, n)
    && (Cost(SummaryFrom(messages, summary, n)) <= budget || forall m | n < m < |messages| :: !IsBoundary(messages, m))
    && (forall m | tier1 <= m < n && IsBoundary(messages, m) :: Cost(SummaryFrom(messages, summary, m)) > budget)
  }

  lemma RefitCut(messages: seq<ChatMessage>, budget: int, summary: ChatMessage, tier1: int, m: int)
    requires IsBoundary(messages, tier1) && Leading(messages) < tier1 && summary.role == System
    requires Chosen(SummaryFrom(messages, summary, tier1), budget, m)
    ensures SummaryCut(messages, budget, summary, tier1, m + tier1 - Leading(messages) - 1)
  {
    var lead := Leading(messages);
    var n := m + tier1 - lead - 1;
    hide SummaryFrom, Cost, Leading, Fits, IsBoundary;
    SummaryBoundary(messages, summary, tier1, m);
    BoundaryBounds(messages, n);
    SummaryFits(messages, budget, summary, tier1, n);
    forall k | tier1 <= k < |messages| && IsBoundary(messages, k)
      ensures n < k ==> Fits(SummaryFrom(messages, summary, tier1), m, budget)
      ensures k < n ==> Cost(SummaryFrom(messages, summary, k)) > budget
    {
      var j := k - tier1 + lead + 1;
      SummaryBoundary(messages, summary, tier1, j);
      SummaryFits(messages, budget, summary, tier1, k);
      BoundaryBounds(SummaryFrom(messages, summary, tier1), j);
    }
    hide Chosen;
    forall k | n < k < |messages| && !Fits(SummaryFrom(messages, summary, tier1), m, budget)
      ensures !IsBoundary(messages, k) {}
  }

  lemma BoundaryBounds(messages: seq<ChatMessage>, n: int)
    requires IsBoundary(messages, n)
    ensures Leading(messages) <= n < |messages|
  {
  }

  lemma UncutFits(messages: seq<ChatMessage>, budget: int, summary: ChatMessage, tier1: int)
    requires IsBoundary(messages, tier1) && Leading(messages) < tier1 && summary.role == System
    requires !NeedsDropping(SummaryFrom(messages, summary, tier1), budget)
    ensures SummaryCut(messages, budget, summary, tier1, tier1)
  {
    SummaryLeading(messages, summary, tier1);
    hide Leading, Cost;
  }

  /** A published summary sits between the system prefix and a whole-turn suffix that Tier 1 kept too. */
  lemma SummaryThenSuffix(messages: seq<ChatMessage>, budget: int, base: CompressResult, summary: ChatMessage,
                          final: CompressResult, r: CompressResult)
    returns (tier1: int, n: int)
    requires IsTruncation(messages, budget, base) && base.droppedMessages != [] && summary.role == System
    requires Refitted(messages, budget, base, summary, final, r)
    ensures tier1 == Leading(messages) + |base.droppedMessages| && CutAt(messages, tier1, base)
    ensures SummaryCut(messages, budget, summary, tier1, n) && n == tier1 + |final.droppedMessages|
    ensures r.messages == SummaryFrom(messages, summary, n)
  {
    hide Leading, Cost, Missing, Fits, From, WithSummary, SummaryFrom, IsTruncation;
    tier1 := CutOf(messages, budget, base);
    assert IsBoundary(messages, tier1) && base.messages == From(messages, tier1);
    hide Chosen;
    var lead, w := Leading(messages), SummaryFrom(messages, summary, tier1);
    WithSummaryCut(messages, summary, tier1);
    SummaryLeading(messages, summary, tier1);
    var m := CutOf(w, budget, final);
    n := m + tier1 - lead - 1;
    SummaryFromAgain(messages, summary, tier1, m);
    assert r.messages == SummaryFrom(messages, summary, n);
    if NeedsDropping(w, budget) {
      RefitCut(messages, budget, summary, tier1, m);
    } else {
      UncutFits(messages, budget, summary, tier1);
    }
  }

  /** The newest turn survives, and the result fits exactly when prefix, summary and newest turn do. */
  lemma NewestTurnSurvives(
    messages: seq<ChatMessage>, budget: int, summary: ChatMessage, tier1: int, n: int, newest: int)
    requires SummaryCut(messages, budget, summary, tier1, n) && IsNewest(messages, newest)
    ensures n <= newest
    ensures Cost(SummaryFrom(messages, summary, n)) <= budget
      <==> Cost(SummaryFrom(messages, summary, newest)) <= budget
  {
    hide Leading;
    var prefix := messages[..Leading(messages)] + [summary];
    assert messages[n..] == messages[n..newest] + messages[newest..];
    CostConcat(prefix, messages[n..]);
    CostConcat(prefix, messages[newest..]);
    CostConcat(messages[n..newest], messages[newest..]);
    hide Cost;
  }

  // --- what is reported as dropped ----------------------------------------------------------------

  lemma {:induction false} MissingConcat(a: seq<ChatMessage>, b: seq<ChatMessage>, kept: seq<ChatMessage>)
    ensures Missing(a + b, kept) == Missing(a, kept) + Missing(b, kept)
  {
    if b == [] {
      assert a + b == a;
    } else {
      assert (a + b)[..|a + b| - 1] == a + b[..|b| - 1];
      MissingConcat(a, b[..|b| - 1], kept);
    }
  }

  lemma {:induction false} NoneMissing(a: seq<ChatMessage>, kept: seq<ChatMessage>)
    requires forall k | 0 <= k < |a| :: a[k] in kept
    ensures Missing(a, kept) == []
  {
    if a != [] { NoneMissing(a[..|a| - 1], kept); }
  }

  lemma {:induction false} AllMissingIff(a: seq<ChatMessage>, kept: seq<ChatMessage>)
    ensures |Missing(a, kept)| <= |a|
    ensures Missing(a, kept) == a <==> forall k | 0 <= k < |a| :: a[k] !in kept
  {
    if a != [] {
      var init := a[..|a| - 1];
      AllMissingIff(init, kept);
      assert a == init + [a[|init|]];
      assert forall k | 0 <= k < |init| :: init[k] == a[k];
    }
  }

  /** Each message is an object of its own. */
  predicate DistinctObjects(messages: seq<ChatMessage>) {
    forall j, k | 0 <= j < k < |messages| :: messages[j].ref != messages[k].ref
  }

  predicate NoneOf(a: seq<ChatMessage>, kept: seq<ChatMessage>) {
    forall k | 0 <= k < |a| :: a[k] !in kept
  }

  /** Only the part between the prefix and the cut can be missing. */
  lemma MissingIsInside(messages: seq<ChatMessage>, summary: ChatMessage, n: int, kept: seq<ChatMessage>)
    requires Leading(messages) <= n <= |messages| && kept == SummaryFrom(messages, summary, n)
    ensures Missing(messages, kept) == Missing(messages[Leading(messages)..n], kept)
  {
    hide Leading, Missing;
    var lead := Leading(messages);
    var prefix, dropped, suffix := messages[..lead], messages[lead..n], messages[n..];
    assert kept[..lead] == prefix && kept[lead + 1..] == suffix;
    NoneMissing(prefix, kept);
    NoneMissing(suffix, kept);
    MissingConcat(prefix + dropped, suffix, kept);
    MissingConcat(prefix, dropped, kept);
    hide SummaryFrom;
    assert messages == prefix + dropped + suffix;
  }

  lemma MiddleIsDetermined(messages: seq<ChatMessage>, lead: int, n: int, middle: seq<ChatMessage>)
    requires 0 <= lead <= n <= |messages|
    ensures messages[..lead] + middle + messages[n..] == messages <==> middle == messages[lead..n]
  {
    var whole := messages[..lead] + middle + messages[n..];
    if whole == messages {
      assert |middle| == n - lead;
      assert middle == whole[lead..n];
    }
    assert messages[..lead] + messages[lead..n] + messages[n..] == messages;
  }

  /** The summary is a new object, so what the cut keeps of a message is decided by the input alone. */
  lemma SummaryIsNew(messages: seq<ChatMessage>, summary: ChatMessage, lead: nat, n: nat)
    requires lead <= n <= |messages| && forall m | m in messages :: m.ref != summary.ref
    ensures NoneOf(messages[lead..n], messages[..lead] + [summary] + messages[n..])
      <==> NoneOf(messages[lead..n], messages[..lead] + messages[n..])
  {
    var dropped := messages[lead..n];
    forall k | 0 <= k < |dropped| ensures dropped[k] != summary { assert dropped[k] == messages[lead + k]; }
  }

  /** The kept originals and the dropped messages make up the input, in order, if and only if no message
      object between the leading ones and the cut occurs among those or after the cut as well: an object
      kept anywhere is not reported as dropped. */
  lemma DroppedIsTheRestIff(messages: seq<ChatMessage>, summary: ChatMessage, n: int, r: CompressResult)
    requires forall m | m in messages :: m.ref != summary.ref
    requires Leading(messages) <= n <= |messages|
    requires r.messages == SummaryFrom(messages, summary, n) && r.droppedMessages == Missing(messages, r.messages)
    ensures var lead := Leading(messages);
      (messages[..lead] + r.droppedMessages + messages[n..] == messages)
      <==> NoneOf(messages[lead..n], messages[..lead] + messages[n..])
  {
    SummaryIsNew(messages, summary, Leading(messages), n);
    hide Leading, Missing, NoneOf;
    MissingIsInside(messages, summary, n, r.messages);
    AllMissing(messages[Leading(messages)..n], r.messages);
    MiddleIsDetermined(messages, Leading(messages), n, r.droppedMessages);
  }

  lemma AllMissing(a: seq<ChatMessage>, kept: seq<ChatMessage>)
    ensures Missing(a, kept) == a <==> NoneOf(a, kept)
  {
    AllMissingIff(a, kept);
    hide Missing;
  }

  lemma NotAmong(messages: seq<ChatMessage>, k: nat, lo: nat, hi: nat)
    requires DistinctObjects(messages) && k < |messages| && lo <= hi <= |messages| && !(lo <= k < hi)
    ensures messages[k] !in messages[lo..hi]
  {
    forall i | 0 <= i < hi - lo ensures messages[lo..hi][i] != messages[k] {
      assert messages[lo..hi][i] == messages[lo + i];
      assert if lo + i < k then messages[lo + i].ref != messages[k].ref else messages[k].ref != messages[lo + i].ref;
    }
  }

  lemma Elsewhere(messages: seq<ChatMessage>, lead: nat, n: nat, k: nat)
    requires DistinctObjects(messages) && lead <= k < n <= |messages|
    ensures messages[k] !in messages[..lead] + messages[n..]
  {
    NotAmong(messages, k, 0, lead);
    NotAmong(messages, k, n, |messages|);
    hide DistinctObjects;
    assert messages[..lead] == messages[0..lead] && messages[n..] == messages[n..|messages|];
  }

  lemma DroppedIsElsewhere(messages: seq<ChatMessage>, n: int)
    requires DistinctObjects(messages) && Leading(messages) <= n <= |messages|
    ensures NoneOf(messages[Leading(messages)..n], messages[..Leading(messages)] + messages[n..])
  {
    hide Leading, DistinctObjects;
    var lead := Leading(messages);
    var dropped := messages[lead..n];
    forall j | 0 <= j < |dropped| ensures dropped[j] !in messages[..lead] + messages[n..] {
      Elsewhere(messages, lead, n, lead + j);
    }
  }

  /** Messages that are objects of their own are each reported kept or dropped, never both. */
  lemma DistinctObjectsArePartitioned(messages: seq<ChatMessage>, summary: ChatMessage, n: int, r: CompressResult)
    requires DistinctObjects(messages) && forall m | m in messages :: m.ref != summary.ref
    requires Leading(messages) <= n <= |messages|
    requires r.messages == SummaryFrom(messages, summary, n) && r.droppedMessages == Missing(messages, r.messages)
    ensures messages[..Leading(messages)] + r.droppedMessages + messages[n..] == messages
  {
    hide *;
    DroppedIsElsewhere(messages, n);
    DroppedIsTheRestIff(messages, summary, n, r);
  }
}
