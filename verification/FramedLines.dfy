/** A body written row by row comes back as its rows (apps/desktop/e2e/host-http.ts:179-249). */
module FramedLines {
  import opened LineFraming
  import opened TextLines

  /** A line and how it is ended: by a newline, or by a carriage return and a newline. */
  datatype Row = Row(text: string, crlf: bool)

  predicate EndsInReturn(s: string) { s != "" && s[|s| - 1] == '\r' }

  /** One line, whose last character is not read as part of its ending. */
  predicate WellMade(row: Row) {
    OneLine(row.text) && (!row.crlf ==> !EndsInReturn(row.text))
  }

  function Written(rows: seq<Row>): string {
    if rows == [] then ""
    else rows[0].text + (if rows[0].crlf then "\r\n" else "\n") + Written(rows[1..])
  }

  function Texts(rows: seq<Row>): seq<string> {
    seq(|rows|, k requires 0 <= k < |rows| => rows[k].text)
  }

  lemma {:induction false} WrittenSplits(rows: seq<Row>, last: string)
    requires (forall row | row in rows :: WellMade(row)) && OneLine(last)
    ensures var pieces := Split(Written(rows) + last);
      && |pieces| == |rows| + 1 && Last(pieces) == last
      && forall k | 0 <= k < |rows| :: Trimmed(pieces[k]) == rows[k].text
  {
    hide Split, OneLine, WellMade, Trimmed, Written;
    if rows == [] {
      NothingWritten(last);
      OneLineIsOnePiece(last);
    } else {
      var row, tail := rows[0], Written(rows[1..]) + last;
      assert row in rows;
      RowIsALine(row);
      FirstRow(rows, last);
      WrittenSplits(rows[1..], last);
      SplitHead(Piece(row), tail);
    }
  }

  lemma NothingWritten(last: string)
    ensures Written([]) + last == last
  {
  }

  /** A row up to its newline. */
  function Piece(row: Row): string { row.text + (if row.crlf then "\r" else "") }

  lemma FirstRow(rows: seq<Row>, last: string)
    requires rows != []
    ensures Written(rows) + last == Piece(rows[0]) + "\n" + (Written(rows[1..]) + last)
  {
    assert "\r\n" == "\r" + "\n";
  }

  lemma RowIsALine(row: Row)
    requires WellMade(row)
    ensures OneLine(Piece(row)) && Trimmed(Piece(row)) == row.text
  {
  }

  lemma RowsTrimmed(pieces: seq<string>, rows: seq<Row>)
    requires |pieces| == |rows| + 1 && forall k | 0 <= k < |rows| :: Trimmed(pieces[k]) == rows[k].text
    ensures AllTrimmed(Complete(pieces)) == Texts(rows)
    ensures AllTrimmed(pieces) == Texts(rows) + [Trimmed(Last(pieces))]
  {
    hide Trimmed;
  }

  lemma FramedIs(body: string)
    ensures var pieces := Split(body);
      Framed(body) == if Last(pieces) == "" then AllTrimmed(Complete(pieces)) else AllTrimmed(pieces)
  {
    hide Split, AllTrimmed;
  }

  /** Main result: every row comes back without its ending, and an unended last row too, less one carriage
      return, unless it is empty. */
  lemma FramedRows(rows: seq<Row>, last: string)
    requires (forall row | row in rows :: WellMade(row)) && OneLine(last)
    ensures Framed(Written(rows) + last) == Texts(rows)
      + (if last == "" then [] else if EndsInReturn(last) then [last[..|last| - 1]] else [last])
  {
    hide Split, OneLine, Written, WellMade, AllTrimmed, Complete, Texts, Framed, Last;
    WrittenSplits(rows, last);
    var pieces := Split(Written(rows) + last);
    RowsTrimmed(pieces, rows);
    FramedIs(Written(rows) + last);
    assert Texts(rows) + [] == Texts(rows);
  }
}
