/** A streamed body re-framed into lines, however it was cut into chunks
    (apps/desktop/e2e/host-http.ts:179-249).  Chunks are the decoded text of what was read; `flush` is what
    the decoder still gives at the end. */
module LineFraming {
  import opened Domain
  import opened TextLines

  /** One trailing carriage return goes. */
  function Trimmed(line: string): string {
    if line != "" && line[|line| - 1] == '\r' then line[..|line| - 1] else line
  }

  function AllTrimmed(pieces: seq<string>): (r: seq<string>)
    ensures |r| == |pieces| && forall k | 0 <= k < |r| :: r[k] == Trimmed(pieces[k])
  {
    seq(|pieces|, k requires 0 <= k < |pieces| => Trimmed(pieces[k]))
  }

  function Last(pieces: seq<string>): string
    requires pieces != []
  {
    pieces[|pieces| - 1]
  }

  function Complete(pieces: seq<string>): seq<string>
    requires pieces != []
  {
    pieces[..|pieces| - 1]
  }

  /** The body's lines: its pieces between newlines, an empty last one omitted. */
  function Framed(body: string): seq<string> {
    var pieces := Split(body);
    AllTrimmed(if Last(pieces) == "" then Complete(pieces) else pieces)
  }

  function Concat(chunks: seq<string>): string {
    if chunks == [] then "" else Concat(chunks[..|chunks| - 1]) + chunks[|chunks| - 1]
  }

  lemma SplitAtNewline(s: string, n: nat)
    requires n == LineLen(s) < |s|
    ensures Split(s) == [s[..n]] + Split(s[n + 1..])
  {
  }

  lemma {:induction false} FirstLineStands(s: string, more: string)
    requires LineLen(s) < |s|
    ensures LineLen(s + more) == LineLen(s)
  {
    if s[0] != '\n' {
      assert (s + more)[1..] == s[1..] + more;
      FirstLineStands(s[1..], more);
    }
  }

  /** More text only extends the last piece. */
  lemma {:induction false} SplitMore(s: string, more: string)
    ensures Split(s + more) == Complete(Split(s)) + Split(Last(Split(s)) + more)
    decreases |s|
  {
    hide *;
    var n := LineLen(s);
    if n < |s| {
      FirstLineStands(s, more);
      SplitAtNewline(s, n);
      SplitAtNewline(s + more, n);
      SplitMore(s[n + 1..], more);
      TailAfter(s, more, n);
      FirstPiece(s[..n], Split(s[n + 1..]));
      RegroupPieces([s[..n]], Complete(Split(s[n + 1..])), Split(Last(Split(s[n + 1..])) + more));
    } else {
      LastLineStands(s);
      OnePiece(s);
      assert [] + Split(s + more) == Split(s + more);
    }
  }

  lemma TailAfter(s: string, more: string, n: nat)
    requires n < |s|
    ensures (s + more)[..n] == s[..n] && (s + more)[n + 1..] == s[n + 1..] + more
  {
  }

  lemma FirstPiece(first: string, rest: seq<string>)
    requires rest != []
    ensures Complete([first] + rest) == [first] + Complete(rest) && Last([first] + rest) == Last(rest)
  {
  }

  lemma OnePiece(s: string)
    ensures Complete([s]) == [] && Last([s]) == s
  {
  }

  lemma LastLineStands(s: string)
    requires LineLen(s) == |s|
    ensures Split(s) == [s]
  {
  }

  lemma RegroupPieces(a: seq<string>, b: seq<string>, c: seq<string>)
    ensures a + (b + c) == (a + b) + c
  {
  }

  lemma LastPieceIsALine(s: string)
    ensures OneLine(Last(Split(s)))
  {
    PiecesAreLines(s);
  }

  lemma OneLineIsOnePiece(s: string)
    requires OneLine(s)
    ensures Split(s) == [s]
  {
    LineLenOf(s, "");
    assert s + "" == s;
  }

  /** The signal was up right after one of these lines was yielded; lines are counted from 1. */
  ghost predicate SeenAfter(aborted: nat -> bool, from: nat, to: nat) {
    exists n: nat :: from < n <= to && aborted(n)
  }

  lemma PiecesOfMore(s: string, more: string)
    ensures var tail := Split(Last(Split(s)) + more);
      && Complete(Split(s + more)) == Complete(Split(s)) + Complete(tail)
      && Last(Split(s + more)) == Last(tail)
  {
    SplitMore(s, more);
    hide Split;
  }

  lemma TrimmedConcat(a: seq<string>, b: seq<string>)
    ensures AllTrimmed(a + b) == AllTrimmed(a) + AllTrimmed(b)
  {
    hide Trimmed;
  }

  /** Lines completed early are among the body's lines, in front. */
  lemma CompleteIsInFront(s: string, more: string)
    ensures AllTrimmed(Complete(Split(s))) <= Framed(s + more)
  {
    hide *;
    PiecesOfMore(s, more);
    var front, tail := Complete(Split(s)), Complete(Split(Last(Split(s)) + more));
    TrimmedConcat(front, tail);
    FramedStarts(s + more);
  }

  lemma FramedStarts(body: string)
    ensures AllTrimmed(Complete(Split(body))) <= Framed(body)
  {
    hide Split, Trimmed;
    PiecesEnd(Split(body));
    TrimmedConcat(Complete(Split(body)), [Last(Split(body))]);
  }

  lemma PiecesEnd(pieces: seq<string>)
    requires pieces != []
    ensures pieces == Complete(pieces) + [Last(pieces)]
  {
  }

  lemma TailIsALine(s: string, flush: string)
    requires OneLine(flush)
    ensures OneLine(Last(Split(s)) + flush)
  {
    LastPieceIsALine(s);
    hide Split, Last;
  }

  /** A last piece without a newline is yielded unless it is empty. */
  lemma FramedAtTheEnd(s: string, flush: string)
    requires OneLine(flush)
    ensures var last := Last(Split(s)) + flush;
      Framed(s + flush) == AllTrimmed(Complete(Split(s))) + (if last == "" then [] else [Trimmed(last)])
  {
    hide Split, Trimmed;
    var last := Last(Split(s)) + flush;
    TailIsALine(s, flush);
    OneLineIsOnePiece(last);
    SplitMore(s, flush);
    hide OneLine;
    assert Split(s + flush) == Complete(Split(s)) + [last];
    TrimmedConcat(Complete(Split(s)), [last]);
  }

  // --- the body -----------------------------------------------------------------------------------

  /** How a pass over the lines ends: at the end of the body, on the signal, because the consumer stopped
      iterating, or because a read rejected. */
  datatype PassEnd = Finished | Stopped | Closed | ReadRejected

  /** The pass is left right after so many lines. */
  function Leaves(aborted: nat -> bool, closed: nat -> bool): nat -> bool {
    (n: nat) => closed(n) || aborted(n)
  }

  /** The first pass over a body.  It is left at the first completed line after which the consumer stops or
      the signal is up, with the lines up to there; only the signal marks the body as read.  Otherwise it
      gives every completed line, and, unless the last read rejects, the whole body's lines. */
  ghost predicate FirstPass(
    chunks: seq<string>, flush: string, fails: bool, aborted: nat -> bool, closed: nat -> bool,
    lines: seq<string>, end: PassEnd, full: string, consumed: bool)
  {
    var body := Concat(chunks);
    var completed := Complete(Split(body));
    if SeenAfter(Leaves(aborted, closed), 0, |completed|) then
      && lines != [] && lines <= Framed(body + flush) && full <= body
      && !SeenAfter(Leaves(aborted, closed), 0, |lines| - 1)
      && (if closed(|lines|) then end == Closed && !consumed else end == Stopped && aborted(|lines|) && consumed)
    else if fails then
      end == ReadRejected && !consumed && full == body && lines == AllTrimmed(completed)
    else
      && consumed && full == body + flush && lines == Framed(full)
      && end == (if |lines| > |completed| && closed(|lines|) then Closed else Finished)
  }

  class Body {
    /** Without a stream there is nothing to read and no reader to lose. */
    const hasStream: bool
    var consumed: bool
    var full: string
    var pending: string
    /** The reader's lock is given up when the chunks end, however they end; no later read succeeds. */
    var released: bool

    ghost predicate Valid()
      reads this
    {
      && (released ==> hasStream)
      && (!consumed && !released ==> full == "" && pending == "")
    }

    constructor (hasStream: bool)
      ensures Valid() && !consumed && !released && this.hasStream == hasStream
    {
      this.hasStream, consumed, full, pending, released := hasStream, false, "", "", false;
    }

    method Feed(s: string)
      modifies this`full, this`pending
      ensures full == old(full) + s && pending == old(pending) + s
    {
      full := full + s;
      pending := pending + s;
    }

    /** The whole body, read now or remembered; none when a read rejects. */
    method Text(chunks: seq<string>, flush: string, fails: bool) returns (text: Option<string>)
      requires Valid() && (!hasStream ==> chunks == [] && !fails)
      modifies this
      ensures Valid()
      ensures old(consumed) ==> text == Some(full) && full == old(full) && consumed
      ensures !old(consumed) && old(released) ==> text == None && full == old(full) && !consumed
      ensures !old(consumed) && !old(released) ==>
        && full == Concat(chunks) + (if fails then "" else flush) && released == hasStream
        && consumed == !fails && text == if fails then None else Some(full)
    {
      if consumed {
        return Some(full);
      }
      if released {
        return None;
      }
      var n := 0;
      assert chunks[..0] == [];
      while n < |chunks|
        invariant n <= |chunks| && full == Concat(chunks[..n]) && !consumed && !released
      {
        assert chunks[..n + 1][..n] == chunks[..n];
        Feed(chunks[n]);
        n := n + 1;
      }
      assert chunks[..n] == chunks;
      released := hasStream;
      if fails {
        assert full == full + "";
        return None;
      }
      Feed(flush);
      consumed := true;
      text := Some(full);
    }

    /** The lines already completed by what is pending, taken until none is left or the pass is left.
        `before` is how many were yielded earlier. */
    method TakeLines(before: nat, aborted: nat -> bool, closed: nat -> bool) returns (taken: seq<string>, left: bool)
      modifies this`pending, this`consumed
      ensures var all := Complete(Split(old(pending))); var leaves := Leaves(aborted, closed);
        && (left <==> SeenAfter(leaves, before, before + |all|))
        && (!left ==> taken == AllTrimmed(all) && pending == Last(Split(old(pending))) && consumed == old(consumed))
        && (left ==>
              && taken != [] && taken <= AllTrimmed(all) && leaves(before + |taken|)
              && !SeenAfter(leaves, before, before + |taken| - 1)
              && consumed == if closed(before + |taken|) then old(consumed) else true)
    {
      taken, left := [], false;
      ghost var all := Split(pending);
      ghost var rest := all;
      ghost var leaves := Leaves(aborted, closed);
      hide Split, Trimmed;
      while true
        invariant consumed == old(consumed)
        invariant rest == Split(pending) && |taken| + |rest| == |all| && all[|taken|..] == rest
        invariant taken == AllTrimmed(all[..|taken|])
        invariant !SeenAfter(leaves, before, before + |taken|)
        decreases |rest|
      {
        LineLenStops(pending);
        var idx := LineLen(pending);
        if idx == |pending| {
          break;
        }
        SplitAtNewline(pending, idx);
        var line := pending[..idx];
        pending := pending[idx + 1..];
        assert all[|taken|] == line;
        assert all[..|taken| + 1] == all[..|taken|] + [line];
        taken := taken + [Trimmed(line)];
        rest := rest[1..];
        if leaves(before + |taken|) {
          LeftHere(leaves, before, |taken|, |all| - 1);
          assert taken == AllTrimmed(Complete(all))[..|taken|];
        }
        if closed(before + |taken|) {
          return taken, true;
        }
        if aborted(before + |taken|) {
          consumed := true;
          return taken, true;
        }
      }
      OneLineIsOnePiece(pending);
    }

    /** A body read before is given again from memory, as far as the consumer goes. */
    method Replay(closed: nat -> bool) returns (lines: seq<string>, end: PassEnd)
      ensures var all := AllTrimmed(Split(full));
        && lines <= all && (end == Closed || end == Finished)
        && (end == Finished ==> lines == all && !SeenAfter(closed, 0, |all|))
        && (end == Closed ==> lines != [] && closed(|lines|) && !SeenAfter(closed, 0, |lines| - 1))
    {
      lines, end := [], Finished;
      hide Split, Trimmed;
      var pieces := Split(full);
      var n := 0;
      while n < |pieces|
        invariant n <= |pieces| && lines == AllTrimmed(pieces)[..n] && !SeenAfter(closed, 0, n)
      {
        lines := lines + [Trimmed(pieces[n])];
        n := n + 1;
        if closed(n) {
          return lines, Closed;
        }
      }
    }

    /** The line stream.  `aborted(n)` and `closed(n)` are whether the signal is up, and whether the consumer
        stops, once n lines have been yielded; `fails` is whether the read after the chunks rejects. */
    method Lines(chunks: seq<string>, flush: string, fails: bool, aborted: nat -> bool, closed: nat -> bool)
      returns (lines: seq<string>, end: PassEnd)
      requires Valid() && (!hasStream ==> chunks == [] && !fails) && OneLine(flush)
      modifies this
      ensures Valid()
      ensures old(consumed) ==> consumed && full == old(full) && lines <= AllTrimmed(Split(full))
      ensures old(consumed) ==>
        (end == Finished && lines == AllTrimmed(Split(full))) || (end == Closed && closed(|lines|))
      ensures !old(consumed) && old(released) ==> end == ReadRejected && lines == [] && full == old(full) && !consumed
      ensures !old(consumed) && !old(released) ==>
        FirstPass(chunks, flush, fails, aborted, closed, lines, end, full, consumed) && released == hasStream
    {
      hide *;
      if consumed {
        lines, end := Replay(closed);
        return;
      }
      if released {
        return [], ReadRejected;
      }
      lines := [];
      ghost var leaves := Leaves(aborted, closed);
      StartOfPass(this, chunks, leaves);
      var n := 0;
      while n < |chunks|
        invariant n <= |chunks| && !consumed && !released
        invariant full == Concat(chunks[..n]) && Framing(full, pending, lines)
        invariant !SeenAfter(leaves, 0, |lines|)
      {
        ghost var sofar, tail := full, pending;
        ConcatMore(chunks, n);
        Feed(chunks[n]);
        var taken, left := TakeLines(|lines|, aborted, closed);
        SeenTogether(leaves, |lines|, |Complete(Split(tail + chunks[n]))|);
        if left {
          StopKeeps(sofar, tail, lines, chunks[n], taken);
          StoppedEarly(chunks, n + 1, flush, leaves);
          SeenTogether(leaves, |lines|, |taken| - 1);
          lines := lines + taken;
          end := if closed(|lines|) then Closed else Stopped;
          released := true;
          LeftEarly(chunks, flush, fails, aborted, closed, lines, full);
          Afterwards(this);
          return;
        }
        FeedKeeps(sofar, tail, lines, chunks[n], taken, pending);
        lines := lines + taken;
        n := n + 1;
      }
      assert chunks[..n] == chunks;
      AtTheEnd(full, pending, lines, flush);
      FramingIs(full, pending, lines);
      released := hasStream;
      if fails {
        AllRead(chunks, flush, fails, aborted, closed, lines, full);
        Afterwards(this);
        return lines, ReadRejected;
      }
      ghost var whole := lines + (if pending + flush == "" then [] else [Trimmed(pending + flush)]);
      AllRead(chunks, flush, fails, aborted, closed, whole, full + flush);
      Feed(flush);
      consumed, end := true, Finished;
      Afterwards(this);
      assert pending == "" ==> whole == lines;
      if |pending| > 0 {
        lines := lines + [Trimmed(pending)];
        assert lines == whole;
        if closed(|lines|) {
          end := Closed;
          return;
        }
        pending := "";
        Afterwards(this);
      }
    }
  }

  lemma LeftHere(leaves: nat -> bool, before: nat, n: nat, all: nat)
    requires 0 < n <= all && leaves(before + n)
    ensures SeenAfter(leaves, before, before + all)
  {
  }

  lemma StartOfPass(body: Body, chunks: seq<string>, leaves: nat -> bool)
    requires body.Valid() && !body.consumed && !body.released
    ensures body.full == Concat(chunks[..0]) && Framing(body.full, body.pending, []) && !SeenAfter(leaves, 0, 0)
  {
    NothingYet(chunks, leaves);
  }

  lemma Afterwards(body: Body)
    requires (body.released ==> body.hasStream) && (body.consumed || body.released)
    ensures body.Valid()
  {
  }

  lemma FramingIs(full: string, pending: string, lines: seq<string>)
    requires Framing(full, pending, lines)
    ensures lines == AllTrimmed(Complete(Split(full)))
  {
  }

  lemma LeftEarly(
    chunks: seq<string>, flush: string, fails: bool,
    aborted: nat -> bool, closed: nat -> bool, lines: seq<string>, full: string)
    requires SeenAfter(Leaves(aborted, closed), 0, |Complete(Split(Concat(chunks)))|)
    requires lines != [] && lines <= Framed(Concat(chunks) + flush) && full <= Concat(chunks)
    requires !SeenAfter(Leaves(aborted, closed), 0, |lines| - 1) && Leaves(aborted, closed)(|lines|)
    ensures var end := if closed(|lines|) then Closed else Stopped;
      FirstPass(chunks, flush, fails, aborted, closed, lines, end, full, !closed(|lines|))
  {
    hide Concat, Split, Complete, Framed, SeenAfter;
  }

  lemma AllRead(
    chunks: seq<string>, flush: string, fails: bool,
    aborted: nat -> bool, closed: nat -> bool, lines: seq<string>, full: string)
    requires !SeenAfter(Leaves(aborted, closed), 0, |Complete(Split(Concat(chunks)))|)
    requires if fails then full == Concat(chunks) && lines == AllTrimmed(Complete(Split(Concat(chunks))))
             else full == Concat(chunks) + flush && lines == Framed(full)
    ensures fails ==> FirstPass(chunks, flush, fails, aborted, closed, lines, ReadRejected, full, false)
    ensures !fails ==>
      var end := if |lines| > |Complete(Split(Concat(chunks)))| && closed(|lines|) then Closed else Finished;
      FirstPass(chunks, flush, fails, aborted, closed, lines, end, full, true)
  {
    hide Concat, Split, Complete, Framed, SeenAfter;
  }

  /** The lines so far are those completed by the text so far; what is pending is the rest. */
  ghost predicate Framing(full: string, pending: string, lines: seq<string>) {
    pending == Last(Split(full)) && lines == AllTrimmed(Complete(Split(full)))
  }

  lemma FeedKeeps(full: string, pending: string, lines: seq<string>, s: string, taken: seq<string>, left: string)
    requires Framing(full, pending, lines)
    requires taken == AllTrimmed(Complete(Split(pending + s))) && left == Last(Split(pending + s))
    ensures Framing(full + s, left, lines + taken)
  {
    hide Split, Trimmed, Last, Complete;
    PiecesOfMore(full, s);
    TrimmedConcat(Complete(Split(full)), Complete(Split(pending + s)));
  }

  lemma StopKeeps(full: string, pending: string, lines: seq<string>, s: string, taken: seq<string>)
    requires Framing(full, pending, lines) && taken <= AllTrimmed(Complete(Split(pending + s)))
    ensures lines + taken <= AllTrimmed(Complete(Split(full + s)))
    ensures |Complete(Split(full + s))| == |lines| + |Complete(Split(pending + s))|
  {
    hide Split, Trimmed, Last, Complete;
    PiecesOfMore(full, s);
    TrimmedConcat(Complete(Split(full)), Complete(Split(pending + s)));
  }

  lemma AtTheEnd(full: string, pending: string, lines: seq<string>, flush: string)
    requires Framing(full, pending, lines) && OneLine(flush)
    ensures Framed(full + flush) == lines + (if pending + flush == "" then [] else [Trimmed(pending + flush)])
    ensures |lines| == |Complete(Split(full))|
  {
    hide Split, Trimmed, Last, Complete, Framed;
    FramedAtTheEnd(full, flush);
  }

  lemma NothingYet(chunks: seq<string>, aborted: nat -> bool)
    ensures Concat(chunks[..0]) == "" && Framing("", "", [])
    ensures !SeenAfter(aborted, 0, 0)
  {
  }

  lemma ConcatMore(chunks: seq<string>, n: nat)
    requires n < |chunks|
    ensures Concat(chunks[..n + 1]) == Concat(chunks[..n]) + chunks[n]
  {
    assert chunks[..n + 1][..n] == chunks[..n];
  }

  lemma SeenTogether(aborted: nat -> bool, from: nat, more: nat)
    ensures SeenAfter(aborted, 0, from + more) <==> SeenAfter(aborted, 0, from) || SeenAfter(aborted, from, from + more)
  {
  }

  lemma {:induction false} ConcatPrefix(chunks: seq<string>, n: nat) returns (more: string)
    requires n <= |chunks|
    ensures Concat(chunks) == Concat(chunks[..n]) + more
  {
    if n == |chunks| {
      assert chunks[..n] == chunks;
      more := "";
    } else {
      var init := chunks[..|chunks| - 1];
      assert init[..n] == chunks[..n];
      var before := ConcatPrefix(init, n);
      more := before + chunks[|chunks| - 1];
    }
  }

  /** What was seen by chunk n is in front of what the whole body would have given. */
  lemma StoppedEarly(chunks: seq<string>, n: nat, flush: string, aborted: nat -> bool)
    requires n <= |chunks|
    ensures var sofar := Concat(chunks[..n]);
      && sofar <= Concat(chunks)
      && AllTrimmed(Complete(Split(sofar))) <= Framed(Concat(chunks) + flush)
      && (SeenAfter(aborted, 0, |Complete(Split(sofar))|) ==> SeenAfter(aborted, 0, |Complete(Split(Concat(chunks)))|))
  {
    var sofar := Concat(chunks[..n]);
    var more := ConcatPrefix(chunks, n);
    assert sofar + more + flush == sofar + (more + flush);
    CompleteIsInFront(sofar, more + flush);
    PiecesOfMore(sofar, more);
    hide *;
    var rest := |Complete(Split(sofar + more))| - |Complete(Split(sofar))|;
    SeenTogether(aborted, |Complete(Split(sofar))|, rest);
  }

  /** The replay of a remembered body gives the same lines if and only if the body does not end in a
      newline and is not empty; otherwise it gives one empty line more. */
  lemma ReplayAgreesIff(body: string)
    ensures AllTrimmed(Split(body)) == Framed(body) <==> body != "" && body[|body| - 1] != '\n'
    ensures AllTrimmed(Split(body)) == Framed(body) || AllTrimmed(Split(body)) == Framed(body) + [""]
  {
    hide Split, Complete, Last, Trimmed;
    LastPieceEmptyIff(body);
    var pieces := Split(body);
    PiecesEnd(pieces);
    TrimmedConcat(Complete(pieces), [Last(pieces)]);
    TrimmedEmpty();
  }

  lemma TrimmedEmpty()
    ensures AllTrimmed([""]) == [""]
  {
  }

  lemma {:induction false} LastPieceEmptyIff(body: string)
    ensures Last(Split(body)) == "" <==> body == "" || body[|body| - 1] == '\n'
    decreases |body|
  {
    hide Split;
    var n := LineLen(body);
    LineLenStops(body);
    hide LineLen;
    if n < |body| {
      SplitAtNewline(body, n);
      FirstPiece(body[..n], Split(body[n + 1..]));
      LastPieceEmptyIff(body[n + 1..]);
      assert n == |body| - 1 ==> body[n + 1..] == "";
    } else {
      LastLineStands(body);
      assert body[..n] == body;
    }
  }
}
