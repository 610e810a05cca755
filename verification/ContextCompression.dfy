/** Hard truncation of a conversation to a token budget (packages/router-core/src/context-compress.ts:82-179). */
module ContextCompression {
  const CHARS_PER_TOKEN := 4
  const MESSAGE_OVERHEAD_TOKENS := 4

  datatype Role = System | User | Assistant | Tool

  /** `ref` is the object's identity; `text` is what its content reads as. */
  datatype ChatMessage = ChatMessage(ref: nat, role: Role, text: string)

  function EstimateMessageTokens(m: ChatMessage): nat {
    (|m.text| + CHARS_PER_TOKEN - 1) / CHARS_PER_TOKEN + MESSAGE_OVERHEAD_TOKENS
  }

  function Cost(messages: seq<ChatMessage>): nat {
    if messages == [] then 0 else EstimateMessageTokens(messages[0]) + Cost(messages[1..])
  }

  lemma {:induction false} CostConcat(a: seq<ChatMessage>, b: seq<ChatMessage>)
    ensures Cost(a + b) == Cost(a) + Cost(b)
  {
    if a == [] {
      assert a + b == b;
    } else {
      assert (a + b)[1..] == a[1..] + b;
      CostConcat(a[1..], b);
    }
  }

  method EstimateTokens(messages: seq<ChatMessage>) returns (n: nat)
    ensures n == Cost(messages)
  {
    n := 0;
    var k := 0;
    while k < |messages|
      invariant k <= |messages| && n == Cost(messages[..k])
    {
      assert messages[..k + 1] == messages[..k] + [messages[k]];
      CostConcat(messages[..k], [messages[k]]);
      n := n + EstimateMessageTokens(messages[k]);
      k := k + 1;
    }
    assert messages[..k] == messages;
  }

  // --- what is asked for ------------------------------------------------------------------------

  /** How many messages the leading run of `system` turns has. */
  function Leading(messages: seq<ChatMessage>): (n: nat)
    ensures n <= |messages|
  {
    if messages == [] || messages[0].role != System then 0 else 1 + Leading(messages[1..])
  }

  lemma {:induction false} LeadingIsTheRun(messages: seq<ChatMessage>)
    ensures forall k | 0 <= k < Leading(messages) :: messages[k].role == System
    ensures Leading(messages) < |messages| ==> messages[Leading(messages)].role != System
  {
    if messages != [] && messages[0].role == System {
      LeadingIsTheRun(messages[1..]);
    }
  }

  /** A position a turn may start at: the first message after the system prefix, or any user message. */
  predicate IsBoundary(messages: seq<ChatMessage>, n: int) {
    Leading(messages) <= n < |messages| && (n == Leading(messages) || messages[n].role == User)
  }

  /** The system prefix, then everything from position n on. */
  function From(messages: seq<ChatMessage>, n: int): (r: seq<ChatMessage>)
    requires Leading(messages) <= n <= |messages|
    ensures |r| == Leading(messages) + |messages| - n
  {
    messages[..Leading(messages)] + messages[n..]
  }

  predicate Fits(messages: seq<ChatMessage>, n: int, budget: int) {
    Leading(messages) <= n <= |messages| && Cost(From(messages, n)) <= budget
  }

  /** The earliest boundary whose suffix fits; failing that, the newest turn's. */
  ghost predicate Chosen(messages: seq<ChatMessage>, budget: int, n: int) {
    && IsBoundary(messages, n)
    && (Fits(messages, n, budget) || forall m | n < m < |messages| :: !IsBoundary(messages, m))
    && (forall m | m < n && IsBoundary(messages, m) :: !Fits(messages, m, budget))
  }

  predicate NeedsDropping(messages: seq<ChatMessage>, budget: int) {
    Cost(messages) > budget && Leading(messages) < |messages|
  }

  datatype CompressResult = CompressResult(
    messages: seq<ChatMessage>,
    dropped: int,
    droppedMessages: seq<ChatMessage>,
    beforeTokens: nat,
    afterTokens: nat,
    budget: int,
    compressed: bool)

  ghost predicate CutAt(messages: seq<ChatMessage>, n: int, r: CompressResult) {
    && Leading(messages) <= n <= |messages|
    && r.messages == From(messages, n)
    && r.droppedMessages == messages[Leading(messages)..n]
  }

  ghost predicate IsTruncation(messages: seq<ChatMessage>, budget: int, r: CompressResult) {
    && r.beforeTokens == Cost(messages) && r.afterTokens == Cost(r.messages) && r.budget == budget
    && r.dropped == |r.droppedMessages|
    && (r.compressed <==> r.droppedMessages != [])
    && (NeedsDropping(messages, budget) ==> exists n :: Chosen(messages, budget, n) && CutAt(messages, n, r))
    && (!NeedsDropping(messages, budget) ==> CutAt(messages, Leading(messages), r))
  }

  // --- how it is done ---------------------------------------------------------------------------

  method SplitSystem(messages: seq<ChatMessage>) returns (prefix: seq<ChatMessage>, rest: seq<ChatMessage>)
    ensures prefix == messages[..Leading(messages)] && rest == messages[Leading(messages)..]
  {
    LeadingIsTheRun(messages);
    var i := 0;
    while i < |messages| && messages[i].role == System
      invariant 0 <= i <= Leading(messages)
    {
      i := i + 1;
    }
    prefix, rest := messages[..i], messages[i..];
  }

  function Flat(turns: seq<seq<ChatMessage>>): seq<ChatMessage> {
    if turns == [] then [] else turns[0] + Flat(turns[1..])
  }

  lemma {:induction false} FlatConcat(a: seq<seq<ChatMessage>>, b: seq<seq<ChatMessage>>)
    ensures Flat(a + b) == Flat(a) + Flat(b)
  {
    if a == [] {
      assert a + b == b;
    } else {
      assert (a + b)[1..] == a[1..] + b;
      FlatConcat(a[1..], b);
    }
  }

  /** A turn opens at a user message (the first opens at whatever is there) and holds no other. */
  predicate IsTurn(turn: seq<ChatMessage>, first: bool) {
    && turn != []
    && (first || turn[0].role == User)
    && forall i | 0 < i < |turn| :: turn[i].role != User
  }

  predicate AreTurns(turns: seq<seq<ChatMessage>>) {
    forall k | 0 <= k < |turns| :: IsTurn(turns[k], k == 0)
  }

  method ToTurns(rest: seq<ChatMessage>) returns (turns: seq<seq<ChatMessage>>)
    ensures Flat(turns) == rest && AreTurns(turns)
  {
    turns := [];
    var n := 0;
    while n < |rest|
      invariant n <= |rest| && Flat(turns) == rest[..n] && AreTurns(turns)
    {
      var m := rest[n];
      assert rest[..n + 1] == rest[..n] + [m];
      if m.role == User || |turns| == 0 {
        FlatConcat(turns, [[m]]);
        turns := turns + [[m]];
      } else {
        var open := turns[|turns| - 1];
        var closed := turns[..|turns| - 1];
        assert turns == closed + [open];
        FlatConcat(closed, [open]);
        FlatConcat(closed, [open + [m]]);
        turns := closed + [open + [m]];
      }
      n := n + 1;
    }
    assert rest[..n] == rest;
  }

  lemma FlatSplit(turns: seq<seq<ChatMessage>>, k: nat)
    requires k <= |turns|
    ensures Flat(turns) == Flat(turns[..k]) + Flat(turns[k..])
  {
    assert turns == turns[..k] + turns[k..];
    FlatConcat(turns[..k], turns[k..]);
  }

  /** Where turn k starts in the whole conversation. */
  ghost function StartOf(lead: nat, turns: seq<seq<ChatMessage>>, k: nat): nat
    requires k <= |turns|
  {
    lead + |Flat(turns[..k])|
  }

  ghost predicate Cover(messages: seq<ChatMessage>, turns: seq<seq<ChatMessage>>) {
    turns != [] && AreTurns(turns) && Flat(turns) == messages[Leading(messages)..]
  }

  lemma FlatFrom(turns: seq<seq<ChatMessage>>, k: nat)
    requires k < |turns|
    ensures Flat(turns[k..]) == turns[k] + Flat(turns[k + 1..])
  {
    assert turns[k..][1..] == turns[k + 1..];
  }

  lemma NextStart(lead: nat, turns: seq<seq<ChatMessage>>, k: nat)
    requires k < |turns|
    ensures StartOf(lead, turns, k + 1) == StartOf(lead, turns, k) + |turns[k]|
  {
    assert turns[..k + 1] == turns[..k] + [turns[k]];
    FlatConcat(turns[..k], [turns[k]]);
    assert Flat([turns[k]]) == turns[k] + Flat([]);
  }

  /** What lies from turn k's start on is the turns from k on. */
  lemma SuffixAt(messages: seq<ChatMessage>, turns: seq<seq<ChatMessage>>, k: nat)
    requires Cover(messages, turns) && k <= |turns|
    ensures var s := StartOf(Leading(messages), turns, k);
      Leading(messages) <= s <= |messages| && messages[s..] == Flat(turns[k..])
  {
    FlatSplit(turns, k);
    var lead := Leading(messages);
    var dropped, kept := Flat(turns[..k]), Flat(turns[k..]);
    assert messages[lead..] == dropped + kept;
    hide *;
    assert messages[lead..][|dropped|..] == kept;
    assert messages[lead + |dropped|..] == messages[lead..][|dropped|..];
  }

  /** What lies inside turn k's stretch is turn k. */
  lemma InsideTurn(messages: seq<ChatMessage>, turns: seq<seq<ChatMessage>>, k: nat, i: nat)
    requires Cover(messages, turns) && k < |turns| && i < |turns[k]|
    ensures StartOf(Leading(messages), turns, k) + i < |messages|
    ensures messages[StartOf(Leading(messages), turns, k) + i] == turns[k][i]
  {
    hide *;
    SuffixAt(messages, turns, k);
    FlatFrom(turns, k);
    var s := StartOf(Leading(messages), turns, k);
    assert messages[s..][i] == turns[k][i];
  }

  lemma TurnStartsAtBoundary(messages: seq<ChatMessage>, turns: seq<seq<ChatMessage>>, k: nat)
    requires Cover(messages, turns) && k < |turns|
    ensures IsBoundary(messages, StartOf(Leading(messages), turns, k))
  {
    assert IsTurn(turns[k], k == 0);
    InsideTurn(messages, turns, k, 0);
    if k == 0 { assert turns[..k] == []; }
    hide Leading, Cover;
  }

  /** Between two starts there is no boundary. */
  lemma NoBoundaryInside(messages: seq<ChatMessage>, turns: seq<seq<ChatMessage>>, k: nat, m: int)
    requires Cover(messages, turns) && k < |turns|
    requires StartOf(Leading(messages), turns, k) < m < StartOf(Leading(messages), turns, k + 1)
    ensures !IsBoundary(messages, m)
  {
    NextStart(Leading(messages), turns, k);
    InsideTurn(messages, turns, k, m - StartOf(Leading(messages), turns, k));
    assert IsTurn(turns[k], k == 0);
    hide Leading, Cover, Flat;
  }

  /** Dropping turn k saves its own estimate. */
  lemma DropTurn(messages: seq<ChatMessage>, turns: seq<seq<ChatMessage>>, k: nat)
    requires Cover(messages, turns) && k < |turns|
    ensures var lead := Leading(messages); var s, t := StartOf(lead, turns, k), StartOf(lead, turns, k + 1);
      && lead <= s <= |messages| && lead <= t <= |messages|
      && Cost(From(messages, s)) == Cost(From(messages, t)) + Cost(turns[k])
  {
    SuffixAt(messages, turns, k);
    SuffixAt(messages, turns, k + 1);
    FlatFrom(turns, k);
    var prefix := messages[..Leading(messages)];
    CostConcat(prefix, Flat(turns[k..]));
    CostConcat(prefix, Flat(turns[k + 1..]));
    CostConcat(turns[k], Flat(turns[k + 1..]));
    hide Flat, Cost, Leading, Cover, StartOf;
  }

  lemma WholeIsFromTheStart(messages: seq<ChatMessage>)
    ensures From(messages, Leading(messages)) == messages
  {
    hide Leading;
  }

  lemma StartsCoverAll(messages: seq<ChatMessage>, turns: seq<seq<ChatMessage>>)
    requires Cover(messages, turns)
    ensures StartOf(Leading(messages), turns, 0) == Leading(messages)
    ensures StartOf(Leading(messages), turns, |turns|) == |messages|
    ensures From(messages, Leading(messages)) == messages
  {
    hide Leading, AreTurns, From, Cost;
    WholeIsFromTheStart(messages);
    assert turns[..|turns|] == turns && turns[..0] == [];
    assert Flat([]) == [];
    hide Flat;
  }

  /** The turns' own estimates, and their sum. */
  method EstimateTurns(turns: seq<seq<ChatMessage>>) returns (turnTokens: seq<nat>, total: nat)
    ensures |turnTokens| == |turns| && forall k | 0 <= k < |turns| :: turnTokens[k] == Cost(turns[k])
    ensures total == Cost(Flat(turns))
  {
    turnTokens, total := [], 0;
    var n := 0;
    while n < |turns|
      invariant n <= |turns| && |turnTokens| == n && forall k | 0 <= k < n :: turnTokens[k] == Cost(turns[k])
      invariant total == Cost(Flat(turns[..n]))
    {
      var cost := EstimateTokens(turns[n]);
      assert turns[..n + 1] == turns[..n] + [turns[n]];
      FlatConcat(turns[..n], [turns[n]]);
      assert Flat([turns[n]]) == turns[n] by { assert Flat([]) == []; assert turns[n] + [] == turns[n]; }
      CostConcat(Flat(turns[..n]), turns[n]);
      turnTokens, total, n := turnTokens + [cost], total + cost, n + 1;
    }
    assert turns[..n] == turns;
  }

  lemma CutHere(messages: seq<ChatMessage>, turns: seq<seq<ChatMessage>>, k: nat)
    requires Cover(messages, turns) && k <= |turns|
    ensures var lead := Leading(messages); var s := StartOf(lead, turns, k);
      && lead <= s <= |messages|
      && From(messages, s) == messages[..lead] + Flat(turns[k..])
      && messages[lead..s] == Flat(turns[..k])
  {
    hide Leading, Flat, Cost, AreTurns, IsTurn;
    var lead := Leading(messages);
    var dropped := Flat(turns[..k]);
    SuffixAt(messages, turns, k);
    FlatSplit(turns, k);
    Front(messages, lead, dropped, Flat(turns[k..]));
  }

  lemma Front(messages: seq<ChatMessage>, lead: nat, front: seq<ChatMessage>, rest: seq<ChatMessage>)
    requires lead <= |messages| && messages[lead..] == front + rest
    ensures lead + |front| <= |messages| && messages[lead..lead + |front|] == front
  {
    assert messages[lead..lead + |front|] == messages[lead..][..|front|];
  }

  method CompressMessages(messages: seq<ChatMessage>, budget: int) returns (r: CompressResult)
    ensures IsTruncation(messages, budget, r)
  {
    hide EstimateMessageTokens, IsBoundary, Fits, IsTurn;
    var beforeTokens := EstimateTokens(messages);
    var asIs := CompressResult(messages, 0, [], beforeTokens, beforeTokens, budget, false);
    var lead := Leading(messages);
    assert From(messages, lead) == messages;
    if |messages| == 0 || beforeTokens <= budget {
      return asIs;
    }
    var systemPrefix, rest := SplitSystem(messages);
    if |rest| == 0 {
      return asIs;
    }
    var turns := ToTurns(rest);
    var turnTokens, total := EstimateTurns(turns);
    var prefixTokens := EstimateTokens(systemPrefix);
    CostConcat(systemPrefix, rest);
    total := prefixTokens + total;
    var start := Shrink(messages, turns, turnTokens, total, budget);
    var keptTurns := Flat(turns[start..]);
    var dropped := Flat(turns[..start]);
    var kept := systemPrefix + keptTurns;
    CutHere(messages, turns, start);
    var afterTokens := EstimateTokens(kept);
    r := CompressResult(kept, |messages| - |kept|, dropped, beforeTokens, afterTokens, budget, |kept| < |messages|);
    assert CutAt(messages, StartOf(lead, turns, start), r);
    hide StartOf, Flat, Cost, Leading, Cover, Chosen;
  }

  ghost predicate NoneFitsBefore(messages: seq<ChatMessage>, budget: int, n: int) {
    forall m | m < n && IsBoundary(messages, m) :: !Fits(messages, m, budget)
  }

  lemma NoneFitsYet(messages: seq<ChatMessage>, turns: seq<seq<ChatMessage>>, budget: int, k: nat)
    requires Cover(messages, turns) && k < |turns|
    requires var s := StartOf(Leading(messages), turns, k);
      NoneFitsBefore(messages, budget, s) && !Fits(messages, s, budget)
    ensures NoneFitsBefore(messages, budget, StartOf(Leading(messages), turns, k + 1))
  {
    hide IsBoundary, Fits, StartOf, Cover, Leading;
    forall m | m < StartOf(Leading(messages), turns, k + 1) && IsBoundary(messages, m)
      ensures !Fits(messages, m, budget)
    {
      if m > StartOf(Leading(messages), turns, k) {
        NoBoundaryInside(messages, turns, k, m);
      }
    }
  }

  lemma ChosenAt(messages: seq<ChatMessage>, turns: seq<seq<ChatMessage>>, budget: int, k: nat)
    requires Cover(messages, turns) && k < |turns|
    requires var s := StartOf(Leading(messages), turns, k);
      && NoneFitsBefore(messages, budget, s) && IsBoundary(messages, s)
      && (k == |turns| - 1 || Fits(messages, s, budget))
    ensures Chosen(messages, budget, StartOf(Leading(messages), turns, k))
  {
    hide IsBoundary, Fits, StartOf, Cover, Leading;
    var s := StartOf(Leading(messages), turns, k);
    StartsCoverAll(messages, turns);
    if !Fits(messages, s, budget) {
      forall m | s < m < |messages| ensures !IsBoundary(messages, m) {
        NoBoundaryInside(messages, turns, k, m);
      }
    }
  }

  lemma FitsMeans(messages: seq<ChatMessage>, n: int, budget: int)
    requires Leading(messages) <= n <= |messages|
    ensures Fits(messages, n, budget) <==> Cost(From(messages, n)) <= budget
  {
  }

  lemma CoverIsNonempty(messages: seq<ChatMessage>, turns: seq<seq<ChatMessage>>)
    requires Cover(messages, turns)
    ensures |turns| > 0
  {
  }

  lemma NothingBefore(messages: seq<ChatMessage>, budget: int)
    ensures NoneFitsBefore(messages, budget, Leading(messages))
  {
  }

  /** The dropping loop: which turn the kept suffix starts with. */
  method Shrink(
    messages: seq<ChatMessage>, turns: seq<seq<ChatMessage>>, turnTokens: seq<nat>, before: nat, budget: int)
    returns (start: nat)
    requires Cover(messages, turns)
    requires |turnTokens| == |turns| && forall k | 0 <= k < |turns| :: turnTokens[k] == Cost(turns[k])
    requires before == Cost(messages) > budget
    ensures start < |turns| && Chosen(messages, budget, StartOf(Leading(messages), turns, start))
  {
    hide *;
    CoverIsNonempty(messages, turns);
    ghost var lead := Leading(messages);
    start := 0;
    var total := before;
    StartsCoverAll(messages, turns);
    TurnStartsAtBoundary(messages, turns, 0);
    NothingBefore(messages, budget);
    while start < |turns| - 1 && total > budget
      invariant start < |turns|
      invariant IsBoundary(messages, StartOf(lead, turns, start))
      invariant lead <= StartOf(lead, turns, start) <= |messages|
      invariant total == Cost(From(messages, StartOf(lead, turns, start)))
      invariant NoneFitsBefore(messages, budget, StartOf(lead, turns, start))
    {
      DropTurn(messages, turns, start);
      FitsMeans(messages, StartOf(lead, turns, start), budget);
      TurnStartsAtBoundary(messages, turns, start + 1);
      NoneFitsYet(messages, turns, budget, start);
      total := total - turnTokens[start];
      start := start + 1;
    }
    FitsMeans(messages, StartOf(lead, turns, start), budget);
    ChosenAt(messages, turns, budget, start);
  }

  /** A message is charged four tokens and as many more as it takes at four characters each. */
  lemma EstimateIs(m: ChatMessage)
    ensures EstimateMessageTokens(m) >= 4
    ensures forall n: nat :: 4 * n >= |m.text| <==> n + 4 >= EstimateMessageTokens(m)
  {
  }
}
