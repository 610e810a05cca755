/** The JSONPath subset of the manifests (packages/router-core/src/jsonpath.ts). */
module JsonPath {
  import opened Domain

  /** Objects keep the order their entries enumerate in. */
  datatype Json =
    | Null
    | Bool(b: bool)
    | Number(n: real)
    | Text(s: string)
    | Array(items: seq<Json>)
    | Object(entries: seq<(string, Json)>)

  /** A name of "*" is the wildcard, however it was written. */
  datatype Step = Name(name: string) | Index(index: nat)

  const WILDCARD := Name("*")

  datatype PathError = NoDollar | EmptyStep | Unclosed | UnexpectedChar | UnsupportedSelector

  type Parsed = Result<seq<Step>, PathError>

  // --- parsing ------------------------------------------------------------------------------------

  /** How far a dotted name reaches: to the next dot or bracket. */
  function NameLen(s: string): (n: nat)
    ensures n <= |s|
  {
    if s == "" || s[0] == '.' || s[0] == '[' then 0 else 1 + NameLen(s[1..])
  }

  /** How many characters stand before the first closing bracket. */
  function CloseLen(s: string): (n: nat)
    ensures n <= |s|
  {
    if s == "" || s[0] == ']' then 0 else 1 + CloseLen(s[1..])
  }

  predicate IsDigit(c: char) { '0' <= c <= '9' }

  predicate AllDigits(s: string) { forall k | 0 <= k < |s| :: IsDigit(s[k]) }

  function ValueOf(digits: string): nat
    requires AllDigits(digits)
  {
    if digits == "" then 0
    else 10 * ValueOf(digits[..|digits| - 1]) + (digits[|digits| - 1] as nat - '0' as nat)
  }

  /** What `.` does not match. */
  predicate IsLineEnd(c: char) { c == '\n' || c == '\r' || c == '\U{2028}' || c == '\U{2029}' }

  predicate NoLineEnd(s: string) { forall k | 0 <= k < |s| :: !IsLineEnd(s[k]) }

  predicate IsQuoted(s: string, quote: char) {
    |s| >= 2 && s[0] == quote && s[|s| - 1] == quote && NoLineEnd(s[1..|s| - 1])
  }

  /** What stands between brackets. */
  function Selector(inner: string): Result<Step, PathError> {
    if inner == "*" then Ok(WILDCARD)
    else if inner != "" && AllDigits(inner) then Ok(Index(ValueOf(inner)))
    else if IsQuoted(inner, '"') || IsQuoted(inner, '\'') then Ok(Name(inner[1..|inner| - 1]))
    else Err(UnsupportedSelector)
  }

  function Prepend(step: Step, rest: Parsed): Parsed {
    match rest case Ok(steps) => Ok([step] + steps) case Err(e) => Err(e)
  }

  /** The steps of what follows the root. */
  function Steps(s: string): Parsed
    decreases |s|
  {
    if s == "" then Ok([])
    else if s[0] == '.' then
      var n := NameLen(s[1..]);
      if n == 0 then Err(EmptyStep) else Prepend(Name(s[1..1 + n]), Steps(s[1 + n..]))
    else if s[0] == '[' then
      var n := CloseLen(s[1..]);
      if 1 + n == |s| then Err(Unclosed)
      else
        match Selector(s[1..1 + n])
        case Err(e) => Err(e)
        case Ok(step) => Prepend(step, Steps(s[2 + n..]))
    else Err(UnexpectedChar)
  }

  function Parse(path: string): Parsed {
    if path == "" || path[0] != '$' then Err(NoDollar) else Steps(path[1..])
  }

  /** What the loop has found so far, in front of what the rest gives. */
  function After(found: seq<Step>, rest: Parsed): Parsed {
    match rest case Ok(steps) => Ok(found + steps) case Err(e) => Err(e)
  }

  lemma AfterOne(found: seq<Step>, step: Step, rest: Parsed)
    ensures After(found, Prepend(step, rest)) == After(found + [step], rest)
  {
    if rest.Ok? { assert found + ([step] + rest.value) == found + [step] + rest.value; }
  }

  lemma AfterNothing(rest: Parsed)
    ensures After([], rest) == rest
  {
    if rest.Ok? { assert [] + rest.value == rest.value; }
  }

  method DottedName(path: string, start: nat) returns (name: string, i: nat)
    requires start <= |path|
    ensures i == start + NameLen(path[start..]) && name == path[start..i]
  {
    i, name := start, "";
    while i < |path| && path[i] != '.' && path[i] != '['
      invariant start <= i <= |path| && name == path[start..i]
      invariant i + NameLen(path[i..]) == start + NameLen(path[start..])
    {
      assert path[i..][1..] == path[i + 1..];
      name := name + [path[i]];
      i := i + 1;
    }
  }

  method FindClose(path: string, start: nat) returns (end: nat)
    requires start <= |path|
    ensures end == start + CloseLen(path[start..])
  {
    end := start;
    while end < |path| && path[end] != ']'
      invariant start <= end <= |path| && end + CloseLen(path[end..]) == start + CloseLen(path[start..])
    {
      assert path[end..][1..] == path[end + 1..];
      end := end + 1;
    }
  }

  lemma DotStep(path: string, i: nat)
    requires i < |path| && path[i] == '.'
    ensures var n := NameLen(path[i + 1..]);
      Steps(path[i..])
        == if n == 0 then Err(EmptyStep) else Prepend(Name(path[i + 1..i + 1 + n]), Steps(path[i + 1 + n..]))
  {
    var s := path[i..];
    assert s[1..] == path[i + 1..];
    var n := NameLen(s[1..]);
    assert s[1..1 + n] == path[i + 1..i + 1 + n] && s[1 + n..] == path[i + 1 + n..];
    hide NameLen, CloseLen, Selector;
  }

  lemma BracketStep(path: string, i: nat)
    requires i < |path| && path[i] == '['
    ensures var n := CloseLen(path[i + 1..]);
      Steps(path[i..])
        == if i + 1 + n == |path| then Err(Unclosed)
           else if Selector(path[i + 1..i + 1 + n]).Err? then Err(Selector(path[i + 1..i + 1 + n]).error)
           else Prepend(Selector(path[i + 1..i + 1 + n]).value, Steps(path[i + 2 + n..]))
  {
    var s := path[i..];
    assert s[1..] == path[i + 1..];
    var n := CloseLen(s[1..]);
    assert s[1..1 + n] == path[i + 1..i + 1 + n];
    assert 1 + n < |s| ==> s[2 + n..] == path[i + 2 + n..];
    hide NameLen, CloseLen, Selector;
  }

  lemma OtherStep(path: string, i: nat)
    requires i < |path| && path[i] != '.' && path[i] != '['
    ensures Steps(path[i..]) == Err(UnexpectedChar)
  {
    hide NameLen, CloseLen, Selector;
  }

  /** The parse is what has been found, in front of what the rest gives. */
  ghost predicate Progress(path: string, found: seq<Step>, i: nat) {
    i <= |path| && Parse(path) == After(found, Steps(path[i..]))
  }

  lemma NotRooted(path: string)
    requires path == "" || path[0] != '$'
    ensures Parse(path) == Err(NoDollar)
  {
  }

  lemma Started(path: string)
    requires path != "" && path[0] == '$'
    ensures Progress(path, [], 1)
  {
    hide Steps;
    AfterNothing(Steps(path[1..]));
  }

  lemma Failed(path: string, found: seq<Step>, i: nat, e: PathError)
    requires Progress(path, found, i) && Steps(path[i..]) == Err(e)
    ensures Parse(path) == Err(e)
  {
    hide Steps, Parse;
  }

  lemma Stepped(path: string, found: seq<Step>, i: nat, step: Step, j: nat)
    requires Progress(path, found, i) && j <= |path| && Steps(path[i..]) == Prepend(step, Steps(path[j..]))
    ensures Progress(path, found + [step], j)
  {
    hide Steps, Parse;
    AfterOne(found, step, Steps(path[j..]));
  }

  lemma Finished(path: string, found: seq<Step>)
    requires Progress(path, found, |path|)
    ensures Parse(path) == Ok(found)
  {
    assert path[|path|..] == "" && found + [] == found;
    hide Parse;
  }

  method ParsePath(path: string) returns (r: Parsed)
    ensures r == Parse(path)
  {
    hide *;
    if path == "" || path[0] != '$' {
      NotRooted(path);
      return Err(NoDollar);
    }
    var steps: seq<Step> := [];
    var i := 1;
    Started(path);
    while i < |path|
      invariant 1 <= i <= |path| && Progress(path, steps, i)
      decreases |path| - i
    {
      if path[i] == '.' {
        DotStep(path, i);
        var name, j := DottedName(path, i + 1);
        if name == "" {
          Failed(path, steps, i, EmptyStep);
          return Err(EmptyStep);
        }
        Stepped(path, steps, i, Name(name), j);
        steps := steps + [Name(name)];
        i := j;
      } else if path[i] == '[' {
        BracketStep(path, i);
        var end := FindClose(path, i + 1);
        if end == |path| {
          Failed(path, steps, i, Unclosed);
          return Err(Unclosed);
        }
        var step := Selector(path[i + 1..end]);
        if step.Err? {
          Failed(path, steps, i, step.error);
          return Err(step.error);
        }
        Stepped(path, steps, i, step.value, end + 1);
        steps := steps + [step.value];
        i := end + 1;
      } else {
        OtherStep(path, i);
        Failed(path, steps, i, UnexpectedChar);
        return Err(UnexpectedChar);
      }
    }
    Finished(path, steps);
    r := Ok(steps);
  }

  // --- walking ------------------------------------------------------------------------------------

  function Values(entries: seq<(string, Json)>): (r: seq<Json>)
    ensures |r| == |entries| && forall k | 0 <= k < |r| :: r[k] == entries[k].1
  {
    seq(|entries|, k requires 0 <= k < |entries| => entries[k].1)
  }

  function Children(v: Json): seq<Json> {
    match v
    case Array(items) => items
    case Object(entries) => Values(entries)
    case _ => []
  }

  /** The entry of that name, as a list of at most one. */
  function Entry(entries: seq<(string, Json)>, name: string): (r: seq<Json>)
    ensures |r| <= 1
  {
    if entries == [] then []
    else if entries[0].0 == name then [entries[0].1]
    else Entry(entries[1..], name)
  }

  /** Where one step leads. */
  function Follow(node: Json, step: Step): seq<Json> {
    if step == WILDCARD then Children(node)
    else
      match step
      case Index(i) => if node.Array? && i < |node.items| then [node.items[i]] else []
      case Name(name) => if node.Object? then Entry(node.entries, name) else []
  }

  function Walk(node: Json, steps: seq<Step>): seq<Json>
    decreases |steps|, 0, 0
  {
    if steps == [] then [node] else WalkAll(Follow(node, steps[0]), steps[1..])
  }

  /** From each node in turn, the matches in order. */
  function WalkAll(nodes: seq<Json>, steps: seq<Step>): seq<Json>
    decreases |steps|, 1, |nodes|
  {
    if nodes == [] then [] else Walk(nodes[0], steps) + WalkAll(nodes[1..], steps)
  }

  function SelectAll(json: Json, path: string): Result<seq<Json>, PathError> {
    match Parse(path) case Ok(steps) => Ok(Walk(json, steps)) case Err(e) => Err(e)
  }

  function SelectOne(json: Json, path: string): Result<Option<Json>, PathError> {
    match SelectAll(json, path)
    case Ok(all) => Ok(if all == [] then None else Some(all[0]))
    case Err(e) => Err(e)
  }
}
