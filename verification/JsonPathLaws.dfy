/** Paths printed and parsed, and walks composed (packages/router-core/src/jsonpath.ts:1-76). */
module JsonPathLaws {
  import opened Domain
  import opened JsonPath

  // --- printing -----------------------------------------------------------------------------------

  predicate IsDottable(name: string) {
    name != "" && forall k | 0 <= k < |name| :: name[k] != '.' && name[k] != '['
  }

  predicate IsQuotable(name: string) {
    NoLineEnd(name) && forall k | 0 <= k < |name| :: name[k] != ']'
  }

  /** There is a way to write the step. */
  predicate IsPrintable(step: Step) {
    step.Index? || IsDottable(step.name) || IsQuotable(step.name)
  }

  predicate ArePrintable(steps: seq<Step>) {
    forall k | 0 <= k < |steps| :: IsPrintable(steps[k])
  }

  function Digit(n: nat): char
    requires n < 10
  {
    '0' + n as char
  }

  function Decimal(n: nat): (s: string)
    ensures s != ""
  {
    (if n < 10 then "" else Decimal(n / 10)) + [Digit(n % 10)]
  }

  function Quoted(name: string): string { "\"" + name + "\"" }

  function PrintStep(step: Step): string {
    match step
    case Index(n) => "[" + Decimal(n) + "]"
    case Name(name) => if IsDottable(name) then "." + name else "[" + Quoted(name) + "]"
  }

  function PrintSteps(steps: seq<Step>): string {
    if steps == [] then "" else PrintStep(steps[0]) + PrintSteps(steps[1..])
  }

  function Print(steps: seq<Step>): string { "$" + PrintSteps(steps) }

  // --- what was printed parses back ---------------------------------------------------------------

  lemma {:induction false} DecimalIsDigits(n: nat)
    ensures AllDigits(Decimal(n)) && ValueOf(Decimal(n)) == n
    ensures Decimal(n) != "*" && forall k | 0 <= k < |Decimal(n)| :: Decimal(n)[k] != ']'
  {
    var front := if n < 10 then "" else Decimal(n / 10);
    if n >= 10 { DecimalIsDigits(n / 10); }
    assert Decimal(n)[..|Decimal(n)| - 1] == front;
    assert IsDigit(Digit(n % 10));
  }

  lemma {:induction false} NameLenOf(name: string, rest: string)
    requires forall k | 0 <= k < |name| :: name[k] != '.' && name[k] != '['
    requires rest == "" || rest[0] == '.' || rest[0] == '['
    ensures NameLen(name + rest) == |name|
  {
    if name == "" {
      assert name + rest == rest;
    } else {
      assert (name + rest)[1..] == name[1..] + rest;
      NameLenOf(name[1..], rest);
    }
  }

  lemma {:induction false} CloseLenOf(inner: string, rest: string)
    requires forall k | 0 <= k < |inner| :: inner[k] != ']'
    ensures CloseLen(inner + "]" + rest) == |inner|
  {
    if inner == "" {
      assert (inner + "]" + rest)[0] == ']';
    } else {
      assert (inner + "]" + rest)[1..] == inner[1..] + "]" + rest;
      CloseLenOf(inner[1..], rest);
    }
  }

  lemma QuotedSelects(name: string)
    requires NoLineEnd(name)
    ensures Selector(Quoted(name)) == Ok(Name(name))
  {
    var q := Quoted(name);
    assert q[1..|q| - 1] == name;
    assert q[0] == '"' && !IsDigit(q[0]);
  }

  /** A bracket's step, whatever stands between the brackets. */
  lemma BracketParses(inner: string, step: Step, rest: string)
    requires (forall k | 0 <= k < |inner| :: inner[k] != ']') && Selector(inner) == Ok(step)
    ensures Steps("[" + inner + "]" + rest) == Prepend(step, Steps(rest))
  {
    var s := "[" + inner + "]" + rest;
    CloseLenOf(inner, rest);
    hide Selector, CloseLen, Steps, Prepend, NameLen;
    BracketStep(s, 0);
    assert s[0..] == s && s[1..] == inner + "]" + rest;
    assert s[1..1 + |inner|] == inner && s[2 + |inner|..] == rest;
  }

  lemma Parts(c: char, middle: string, rest: string)
    ensures var s := [c] + middle + rest; var n := 1 + |middle|;
      s[0] == c && s[0..] == s && s[1..] == middle + rest && s[1..n] == middle && s[n..] == rest
  {
  }

  lemma DotParses(name: string, rest: string)
    requires IsDottable(name) && (rest == "" || rest[0] == '.' || rest[0] == '[')
    ensures Steps("." + name + rest) == Prepend(Name(name), Steps(rest))
  {
    var s := "." + name + rest;
    NameLenOf(name, rest);
    Parts('.', name, rest);
    assert |name| > 0 && s == ['.'] + name + rest;
    hide *;
    DotStep(s, 0);
  }

  lemma PrintedHead(steps: seq<Step>)
    ensures var s := PrintSteps(steps); s == "" || s[0] == '.' || s[0] == '['
  {
    hide Decimal, Quoted;
  }

  lemma {:induction false} PrintedStepsParse(steps: seq<Step>)
    requires ArePrintable(steps)
    ensures Steps(PrintSteps(steps)) == Ok(steps)
  {
    if steps != [] {
      var step, rest := steps[0], PrintSteps(steps[1..]);
      assert IsPrintable(steps[0]);
      PrintedStepsParse(steps[1..]);
      PrintedHead(steps[1..]);
      hide Steps;
      assert [step] + steps[1..] == steps;
      StepParses(step, rest);
      hide PrintStep, IsPrintable;
    }
  }

  lemma StepParses(step: Step, rest: string)
    requires IsPrintable(step) && (rest == "" || rest[0] == '.' || rest[0] == '[')
    ensures Steps(PrintStep(step) + rest) == Prepend(step, Steps(rest))
  {
    hide Steps, Prepend, Selector;
    if step.Index? {
      DecimalIsDigits(step.index);
      DecimalSelects(step.index);
      BracketParses(Decimal(step.index), step, rest);
    } else if IsDottable(step.name) {
      DotParses(step.name, rest);
    } else {
      QuotedSelects(step.name);
      BracketParses(Quoted(step.name), step, rest);
    }
  }

  lemma DecimalSelects(n: nat)
    ensures Selector(Decimal(n)) == Ok(Index(n))
  {
    DecimalIsDigits(n);
    hide Decimal, ValueOf, AllDigits;
  }

  /** Every list of steps that can be written at all is read back as it was. */
  lemma PrintThenParse(steps: seq<Step>)
    requires ArePrintable(steps)
    ensures Parse(Print(steps)) == Ok(steps)
  {
    PrintedStepsParse(steps);
    assert Print(steps)[1..] == PrintSteps(steps);
    hide Steps, PrintSteps;
  }

  // --- nothing else parses ------------------------------------------------------------------------

  lemma {:induction false} NameLenStops(s: string)
    ensures forall k | 0 <= k < NameLen(s) :: s[k] != '.' && s[k] != '['
  {
    if s != "" && s[0] != '.' && s[0] != '[' {
      NameLenStops(s[1..]);
      forall k | 0 < k < NameLen(s) ensures s[k] != '.' && s[k] != '[' { assert s[k] == s[1..][k - 1]; }
    }
  }

  lemma {:induction false} CloseLenStops(s: string)
    ensures forall k | 0 <= k < CloseLen(s) :: s[k] != ']'
  {
    if s != "" && s[0] != ']' {
      CloseLenStops(s[1..]);
      forall k | 0 < k < CloseLen(s) ensures s[k] != ']' { assert s[k] == s[1..][k - 1]; }
    }
  }

  lemma SelectedIsPrintable(inner: string)
    requires forall k | 0 <= k < |inner| :: inner[k] != ']'
    ensures Selector(inner).Ok? ==> IsPrintable(Selector(inner).value)
  {
    if IsQuoted(inner, '"') || IsQuoted(inner, '\'') {
      var name := inner[1..|inner| - 1];
      assert IsQuotable(name);
    }
    assert IsDottable("*");
    hide ValueOf;
  }

  lemma {:induction false} ParsedStepsArePrintable(s: string)
    ensures Steps(s).Ok? ==> ArePrintable(Steps(s).value)
    decreases |s|
  {
    hide IsPrintable, Selector, NameLen, CloseLen;
    if s != "" && s[0] == '.' {
      var n := NameLen(s[1..]);
      if n > 0 {
        NameLenStops(s[1..]);
        assert IsPrintable(Name(s[1..1 + n])) by { DottablePart(s[1..], n); assert s[1..][..n] == s[1..1 + n]; }
        ParsedStepsArePrintable(s[1 + n..]);
      }
    } else if s != "" && s[0] == '[' {
      var n := CloseLen(s[1..]);
      CloseLenStops(s[1..]);
      if 1 + n < |s| && Selector(s[1..1 + n]).Ok? {
        assert s[1..1 + n] == s[1..][..n];
        SelectedIsPrintable(s[1..1 + n]);
        ParsedStepsArePrintable(s[2 + n..]);
      }
    }
  }

  lemma DottablePart(s: string, n: nat)
    requires 0 < n <= |s| && forall k | 0 <= k < n :: s[k] != '.' && s[k] != '['
    ensures IsPrintable(Name(s[..n]))
  {
  }

  /** A list of steps is what some path parses to if and only if every step of it can be written. */
  lemma ParseReachesExactlyThePrintable(steps: seq<Step>)
    ensures (exists path :: Parse(path) == Ok(steps)) <==> ArePrintable(steps)
  {
    if ArePrintable(steps) {
      PrintThenParse(steps);
    }
    forall path | Parse(path) == Ok(steps) ensures ArePrintable(steps) {
      ParsedStepsArePrintable(path[1..]);
    }
  }

  /** A field called "*" cannot be asked for: quoting it still means "every child". */
  lemma StarIsAlwaysTheWildcard(node: Json)
    ensures Parse("$[\"*\"]") == Ok([WILDCARD]) && Parse("$.*") == Ok([WILDCARD])
    ensures Follow(node, Name("*")) == Children(node)
  {
    QuotedSelects("*");
    assert Quoted("*") == "\"*\"";
    BracketParses("\"*\"", WILDCARD, "");
    assert "$[\"*\"]"[1..] == "[" + "\"*\"" + "]" + "";
    DotParses("*", "");
    assert "$.*"[1..] == "." + "*" + "";
    assert [WILDCARD] + [] == [WILDCARD];
    hide Selector, NameLen, CloseLen;
  }

  // --- walking ------------------------------------------------------------------------------------

  lemma {:induction false} WalkAllConcat(a: seq<Json>, b: seq<Json>, steps: seq<Step>)
    ensures WalkAll(a + b, steps) == WalkAll(a, steps) + WalkAll(b, steps)
  {
    hide Walk;
    if a == [] {
      assert a + b == b;
    } else {
      assert (a + b)[1..] == a[1..] + b;
      WalkAllConcat(a[1..], b, steps);
    }
  }

  /** Walking two paths one behind the other is walking the second from each match of the first, in order. */
  lemma {:induction false} WalkComposes(node: Json, first: seq<Step>, second: seq<Step>)
    ensures Walk(node, first + second) == WalkAll(Walk(node, first), second)
    decreases |first|, 0, 0
  {
    if first == [] {
      assert first + second == second;
      assert WalkAll([node], second) == Walk(node, second) + WalkAll([], second);
    } else {
      assert (first + second)[1..] == first[1..] + second;
      hide Follow;
      WalkAllComposes(Follow(node, first[0]), first[1..], second);
    }
  }

  lemma {:induction false} WalkAllComposes(nodes: seq<Json>, first: seq<Step>, second: seq<Step>)
    ensures WalkAll(nodes, first + second) == WalkAll(WalkAll(nodes, first), second)
    decreases |first|, 1, |nodes|
  {
    if nodes != [] {
      WalkComposes(nodes[0], first, second);
      WalkAllComposes(nodes[1..], first, second);
      hide Walk;
      WalkAllConcat(Walk(nodes[0], first), WalkAll(nodes[1..], first), second);
    }
  }

  /** Without a wildcard there is at most one match. */
  lemma {:induction false} PlainPathsSelectOne(node: Json, steps: seq<Step>)
    requires WILDCARD !in steps
    ensures |Walk(node, steps)| <= 1
    decreases |steps|
  {
    if steps != [] {
      assert steps[0] in steps;
      var next := Follow(node, steps[0]);
      assert |next| <= 1;
      hide Follow;
      if next != [] {
        PlainPathsSelectOne(next[0], steps[1..]);
        assert next[1..] == [] && WalkAll([], steps[1..]) == [];
      }
    }
  }

  /** One value and all values agree: the one is the first, and absent exactly when there is none. */
  lemma OneIsTheFirstOfAll(json: Json, path: string)
    ensures SelectOne(json, path).Ok? <==> Parse(path).Ok?
    ensures Parse(path).Ok? && WILDCARD !in Parse(path).value ==>
      SelectAll(json, path) == Ok(if SelectOne(json, path).value.None? then [] else [SelectOne(json, path).value.value])
  {
    hide Walk, Steps;
    if Parse(path).Ok? && WILDCARD !in Parse(path).value {
      PlainPathsSelectOne(json, Parse(path).value);
      var all := Walk(json, Parse(path).value);
      assert all == [] || all == [all[0]];
    }
  }

  // --- what a bracket holds, and where a step leads -------------------------------------------------

  predicate OnOneLine(name: string) {
    forall c | c in name :: c != '\n' && c != '\r' && c != '\U{2028}' && c != '\U{2029}'
  }

  lemma OneLineIs(name: string)
    ensures NoLineEnd(name) <==> OnOneLine(name)
  {
    if OnOneLine(name) {
      forall k | 0 <= k < |name| ensures !IsLineEnd(name[k]) { assert name[k] in name; }
    }
  }

  lemma QuotedIs(inner: string, quote: char, name: string)
    ensures inner == [quote] + name + [quote] && OnOneLine(name)
      <==> IsQuoted(inner, quote) && name == inner[1..|inner| - 1]
  {
    if |inner| >= 2 {
      var middle := inner[1..|inner| - 1];
      assert inner == [inner[0]] + middle + [inner[|inner| - 1]];
      OneLineIs(middle);
    }
    if inner == [quote] + name + [quote] { assert inner[1..|inner| - 1] == name; }
  }

  lemma QuotedIsNotPlain(inner: string, quote: char)
    requires IsQuoted(inner, quote) && (quote == '"' || quote == '\'')
    ensures inner != "*" && !AllDigits(inner)
  {
    assert !IsDigit(inner[0]);
  }

  /** A bracket holds the star, decimal digits, or a name without line ends in quotes of one kind; anything else
      is refused. */
  lemma SelectorIs(inner: string, name: string, n: nat)
    ensures Selector(inner) == Ok(Index(n)) <==> inner != "" && AllDigits(inner) && n == ValueOf(inner)
    ensures Selector(inner) == Ok(Name(name)) <==>
        || (inner == "*" && name == "*")
        || ((inner == "\"" + name + "\"" || inner == "'" + name + "'") && OnOneLine(name))
    ensures Selector(inner).Err? ==> Selector(inner).error == UnsupportedSelector
  {
    hide IsQuoted, OnOneLine, ValueOf, AllDigits;
    QuotedIs(inner, '"', name);
    QuotedIs(inner, '\'', name);
    if IsQuoted(inner, '"') { QuotedIsNotPlain(inner, '"'); }
    if IsQuoted(inner, '\'') { QuotedIsNotPlain(inner, '\''); }
    StarIsNoNumber();
    assert "\"" == ['"'] && "'" == ['\''];
  }

  lemma StarIsNoNumber()
    ensures !AllDigits("*")
  {
    assert !IsDigit("*"[0]);
  }

  /** The first entry of that name. */
  predicate IsFirstEntry(entries: seq<(string, Json)>, k: int, name: string) {
    0 <= k < |entries| && entries[k].0 == name && forall j | 0 <= j < k :: entries[j].0 != name
  }

  lemma {:induction false} EntryIs(entries: seq<(string, Json)>, name: string)
    ensures forall k | IsFirstEntry(entries, k, name) :: Entry(entries, name) == [entries[k].1]
    ensures (forall k | 0 <= k < |entries| :: entries[k].0 != name) ==> Entry(entries, name) == []
  {
    if entries != [] && entries[0].0 != name {
      EntryIs(entries[1..], name);
      forall k | IsFirstEntry(entries, k, name) ensures IsFirstEntry(entries[1..], k - 1, name) {
        assert forall j | 0 <= j < k - 1 :: entries[1..][j] == entries[j + 1];
      }
    }
  }

  /** Main result: the star leads to every item or value, in order; an index to the item there and a name to the
      first value of that name, if the node has one; and no step leads anywhere from a scalar. */
  lemma FollowIs(node: Json, step: Step)
    ensures step == Name("*") && node.Array? ==> Follow(node, step) == node.items
    ensures step == Name("*") && node.Object? ==>
      && |Follow(node, step)| == |node.entries|
      && forall k | 0 <= k < |node.entries| :: Follow(node, step)[k] == node.entries[k].1
    ensures step.Index? && node.Array? ==>
      Follow(node, step) == if step.index < |node.items| then [node.items[step.index]] else []
    ensures step.Name? && step.name != "*" && node.Object? ==>
      && (forall k | IsFirstEntry(node.entries, k, step.name) :: Follow(node, step) == [node.entries[k].1])
      && ((forall k | 0 <= k < |node.entries| :: node.entries[k].0 != step.name) ==> Follow(node, step) == [])
    ensures step.Index? && !node.Array? ==> Follow(node, step) == []
    ensures step.Name? && !node.Array? && !node.Object? ==> Follow(node, step) == []
    ensures step.Name? && step.name != "*" && node.Array? ==> Follow(node, step) == []
  {
    if node.Object? && step.Name? { EntryIs(node.entries, step.name); }
  }
}
