/** What hard truncation promises (packages/router-core/src/context-compress.ts:18-27, 130-179). */
module CompressionLaws {
  import opened ContextCompression

  lemma {:induction false} LeadingIs(messages: seq<ChatMessage>, n: nat)
    requires n <= |messages| && forall k | 0 <= k < n :: messages[k].role == System
    requires n < |messages| ==> messages[n].role != System
    ensures Leading(messages) == n
  {
    LeadingIsTheRun(messages);
  }

  lemma ChosenIsUnique(messages: seq<ChatMessage>, budget: int, m: int, n: int)
    requires Chosen(messages, budget, m) && Chosen(messages, budget, n)
    ensures m == n
  {
    hide Leading, From, Cost;
  }

  lemma TwoParts(messages: seq<ChatMessage>, m: int, n: int)
    requires 0 <= m <= n <= |messages|
    ensures messages[m..] == messages[m..n] + messages[n..]
  {
  }

  lemma CostDropsAlong(messages: seq<ChatMessage>, m: int, n: int)
    requires Leading(messages) <= m <= n <= |messages|
    ensures Cost(From(messages, n)) <= Cost(From(messages, m))
  {
    hide Leading, Cost;
    var prefix := messages[..Leading(messages)];
    CostConcat(prefix, messages[m..]);
    CostConcat(prefix, messages[n..]);
    CostConcat(messages[m..n], messages[n..]);
    TwoParts(messages, m, n);
  }

  /** Where the conversation was cut. */
  lemma CutOf(messages: seq<ChatMessage>, budget: int, r: CompressResult) returns (n: int)
    requires IsTruncation(messages, budget, r)
    ensures CutAt(messages, n, r) && n == Leading(messages) + |r.droppedMessages|
    ensures r.afterTokens == Cost(From(messages, n))
    ensures NeedsDropping(messages, budget) ==> Chosen(messages, budget, n)
    ensures !NeedsDropping(messages, budget) ==> n == Leading(messages) && r.messages == messages
  {
    hide Cost, Leading, Chosen;
    WholeIsFromTheStart(messages);
    if NeedsDropping(messages, budget) {
      n :| Chosen(messages, budget, n) && CutAt(messages, n, r);
    } else {
      n := Leading(messages);
    }
  }

  /** Of all whole-turn suffixes that fit, the longest is kept; if none fits, only the newest turn. */
  lemma KeepsTheLongestThatFits(messages: seq<ChatMessage>, budget: int, r: CompressResult, n: int)
    requires IsTruncation(messages, budget, r) && IsBoundary(messages, n)
    ensures Fits(messages, n, budget) ==> |From(messages, n)| <= |r.messages|
    ensures r.afterTokens > budget ==> |r.messages| <= |From(messages, n)|
  {
    var m := CutOf(messages, budget, r);
    hide Cost, Leading;
    if NeedsDropping(messages, budget) {
      assert |From(messages, m)| == Leading(messages) + |messages| - m;
      assert |From(messages, n)| == Leading(messages) + |messages| - n;
      hide From;
    }
  }

  /** A message and what answers it, up to the next user message, are kept or dropped together. */
  lemma TurnsMoveTogether(messages: seq<ChatMessage>, budget: int, r: CompressResult, i: int, j: int)
    requires IsTruncation(messages, budget, r)
    requires Leading(messages) <= i < j < |messages|
    requires forall k | i < k <= j :: messages[k].role != User
    ensures var cut := Leading(messages) + |r.droppedMessages|;
      && CutAt(messages, cut, r)
      && (i < cut <==> j < cut)
  {
    hide Cost, Leading, Fits;
    var m := CutOf(messages, budget, r);
    hide CutAt;
  }

  lemma CutRejoins(messages: seq<ChatMessage>, n: int, r: CompressResult)
    requires CutAt(messages, n, r)
    ensures var lead := Leading(messages);
      && lead <= |r.messages|
      && r.messages[..lead] + r.droppedMessages + r.messages[lead..] == messages
      && (IsBoundary(messages, n) && r.droppedMessages != [] ==> lead < |r.messages| && r.messages[lead].role == User)
  {
    var lead := Leading(messages);
    hide Leading;
    assert r.messages[lead..] == messages[n..];
    assert r.messages[..lead] == messages[..lead];
    assert messages[..lead] + messages[lead..n] + messages[n..] == messages;
  }

  /** The system prefix is untouched, and what was dropped goes back exactly behind it. */
  lemma DroppedAndKeptRejoin(messages: seq<ChatMessage>, budget: int, r: CompressResult)
    requires IsTruncation(messages, budget, r)
    ensures var lead := Leading(messages);
      && lead <= |r.messages|
      && r.messages[..lead] + r.droppedMessages + r.messages[lead..] == messages
      && (r.droppedMessages != [] ==> lead < |r.messages| && r.messages[lead].role == User)
  {
    var n := CutOf(messages, budget, r);
    CutRejoins(messages, n, r);
    assert r.droppedMessages != [] ==> NeedsDropping(messages, budget) && IsBoundary(messages, n);
    hide *;
  }

  lemma CutLeading(messages: seq<ChatMessage>, n: int)
    requires IsBoundary(messages, n) && Leading(messages) < n
    ensures Leading(From(messages, n)) == Leading(messages)
  {
    var kept, lead := From(messages, n), Leading(messages);
    LeadingIsTheRun(messages);
    hide Leading;
    assert kept[lead] == messages[n];
    assert forall k | 0 <= k < lead :: kept[k] == messages[k];
    LeadingIs(kept, lead);
  }

  lemma CutBoundary(messages: seq<ChatMessage>, n: int, m: int)
    requires IsBoundary(messages, n) && Leading(messages) < n
    ensures IsBoundary(From(messages, n), m)
      <==> Leading(messages) <= m && IsBoundary(messages, m + n - Leading(messages))
  {
    CutLeading(messages, n);
    hide Leading;
    var kept, lead := From(messages, n), Leading(messages);
    assert lead < m < |kept| ==> kept[m] == messages[m + n - lead];
  }

  lemma CutAgain(messages: seq<ChatMessage>, n: int, m: int)
    requires IsBoundary(messages, n) && Leading(messages) < n
    requires Leading(messages) <= m <= |From(messages, n)|
    ensures Leading(From(messages, n)) == Leading(messages)
    ensures From(From(messages, n), m) == From(messages, m + n - Leading(messages))
  {
    CutLeading(messages, n);
    hide Leading;
    var kept, lead := From(messages, n), Leading(messages);
    assert kept[m..] == messages[m + n - lead..];
    assert kept[..lead] == messages[..lead];
  }

  /** What a cut conversation looks like to the next cut. */
  lemma CutConversation(messages: seq<ChatMessage>, n: int, m: int)
    requires IsBoundary(messages, n) && Leading(messages) < n
    ensures var kept := From(messages, n); var lead := Leading(messages);
      && Leading(kept) == lead
      && (IsBoundary(kept, m) <==> lead <= m && IsBoundary(messages, m + n - lead))
      && (lead <= m <= |kept| ==> From(kept, m) == From(messages, m + n - lead))
  {
    CutLeading(messages, n);
    CutBoundary(messages, n, m);
    if Leading(messages) <= m <= |From(messages, n)| { CutAgain(messages, n, m); }
    hide *;
  }

  /** A second cut of what the first one kept is the first cut's own place. */
  lemma SecondCut(messages: seq<ChatMessage>, budget: int, n: int, m: int)
    requires Chosen(messages, budget, n) && !Fits(messages, n, budget) && Leading(messages) < n
    requires IsBoundary(From(messages, n), m)
    ensures m == Leading(From(messages, n))
  {
    CutConversation(messages, n, m);
    hide Cost, Leading, Fits, From;
  }

  /** Compressing a compressed conversation to the same budget changes nothing. */
  lemma CompressingAgainChangesNothing(
    messages: seq<ChatMessage>, budget: int, r: CompressResult, again: CompressResult)
    requires IsTruncation(messages, budget, r) && IsTruncation(r.messages, budget, again)
    ensures again.messages == r.messages && again.droppedMessages == []
  {
    var n := CutOf(messages, budget, r);
    var m := CutOf(r.messages, budget, again);
    WholeIsFromTheStart(messages);
    WholeIsFromTheStart(r.messages);
    hide Cost, Leading, From, IsTruncation;
    if NeedsDropping(r.messages, budget) {
      assert !Fits(messages, n, budget);
      if n > Leading(messages) {
        SecondCut(messages, budget, n, m);
      } else {
        ChosenIsUnique(messages, budget, m, n);
      }
    }
  }

  /** No user message after this boundary: it starts the newest turn. */
  predicate IsNewest(messages: seq<ChatMessage>, n: int) {
    IsBoundary(messages, n) && forall m | n < m < |messages| :: messages[m].role != User
  }

  lemma ChosenFitsIffNewestDoes(messages: seq<ChatMessage>, budget: int, n: int, newest: int)
    requires Chosen(messages, budget, n) && IsNewest(messages, newest)
    ensures n <= newest && (Fits(messages, n, budget) <==> Fits(messages, newest, budget))
  {
    assert n <= newest by { hide Cost, From, Leading; }
    CostDropsAlong(messages, n, newest);
    hide Cost, From, Leading;
  }

  /** The result fits exactly when the conversation did, or the system prefix and the newest turn do. */
  lemma ResultFitsIff(messages: seq<ChatMessage>, budget: int, r: CompressResult, newest: int)
    requires IsTruncation(messages, budget, r) && IsNewest(messages, newest)
    ensures r.afterTokens <= budget <==> Cost(messages) <= budget || Fits(messages, newest, budget)
  {
    var n := CutOf(messages, budget, r);
    WholeIsFromTheStart(messages);
    if NeedsDropping(messages, budget) {
      ChosenFitsIffNewestDoes(messages, budget, n, newest);
    }
    hide Cost, From, Leading, IsTruncation, CutAt, Chosen;
  }
}
