/**
 * The CSV text produced by lib/export.ts and a reader for it.
 *
 * A written cell is either quoted (`"` + text with every `"` doubled + `"`, the escaping
 * rule of items 6 and 7 of section 2 of RFC 4180) or emitted verbatim. The reader follows
 * the same RFC: cells are separated by `,`, records by a line feed (the RFC's CRLF; the
 * exporter writes only line feeds), and a quoted cell may contain both. The round-trip
 * lemmas prove the writer against this reader.
 */
module Csv {
  import opened Wrappers
  import opened Seqs

  // ---------------------------------------------------------------------------
  // Writing
  // ---------------------------------------------------------------------------

  /** `s.replace(/"/g, '""')` */
  function Escape(s: string): (r: string)
    ensures |r| >= |s|
    ensures (forall k :: 0 <= k < |s| ==> s[k] != '"') ==> r == s
  {
    if |s| == 0 then ""
    else (if s[0] == '"' then "\"\"" else [s[0]]) + Escape(s[1..])
  }

  /** `"${s.replace(/"/g, '""')}"` */
  function Quote(s: string): string
  {
    "\"" + Escape(s) + "\""
  }

  /** A cell as the exporter writes it. */
  datatype Cell = Quoted(text: string) | Verbatim(text: string)

  function Encode(c: Cell): string
  {
    match c
    case Quoted(s) => Quote(s)
    case Verbatim(s) => s
  }

  function Encodes(cells: seq<Cell>): seq<string>
  {
    seq(|cells|, k requires 0 <= k < |cells| => Encode(cells[k]))
  }

  /** `row.join(",")` over the written cells. */
  function Line(cells: seq<Cell>): string
  {
    Join(",", Encodes(cells))
  }

  /** The texts the cells stand for. */
  function Values(cells: seq<Cell>): seq<string>
  {
    seq(|cells|, k requires 0 <= k < |cells| => cells[k].text)
  }

  /** `lines.join("\n")` over the written records. */
  function Document(records: seq<seq<Cell>>): string
  {
    Join("\n", seq(|records|, k requires 0 <= k < |records| => Line(records[k])))
  }

  /** A verbatim text reads back as itself: it holds no separator and no quote. */
  predicate IsBare(s: string)
  {
    forall k :: 0 <= k < |s| ==> s[k] != ',' && s[k] != '\n' && s[k] != '"'
  }

  predicate CellReadable(c: Cell)
  {
    c.Verbatim? ==> IsBare(c.text)
  }

  // ---------------------------------------------------------------------------
  // Reading
  // ---------------------------------------------------------------------------

  /**
   * The rest of a quoted cell, after its opening quote: the text up to the closing quote,
   * with `""` read as `"`, and what follows the closing quote. `None` when no closing
   * quote comes.
   */
  function ReadQuoted(s: string): (r: Option<(string, string)>)
    ensures r.Some? ==> |r.value.1| < |s|
  {
    if |s| == 0 then None
    else if s[0] == '"' then
      if |s| > 1 && s[1] == '"' then
        match ReadQuoted(s[2..])
        case None => None
        case Some((text, rest)) => Some(("\"" + text, rest))
      else Some(("", s[1..]))
    else
      match ReadQuoted(s[1..])
      case None => None
      case Some((text, rest)) => Some(([s[0]] + text, rest))
  }

  /** An unquoted cell: the text up to the next `,` or line feed, and the rest. */
  function ReadBare(s: string): (r: (string, string))
    ensures |r.1| <= |s|
  {
    if |s| == 0 || s[0] == ',' || s[0] == '\n' then ("", s)
    else
      var (text, rest) := ReadBare(s[1..]);
      ([s[0]] + text, rest)
  }

  function ReadCell(s: string): (r: Option<(string, string)>)
    ensures r.Some? ==> |r.value.1| <= |s|
  {
    if |s| > 0 && s[0] == '"' then ReadQuoted(s[1..]) else Some(ReadBare(s))
  }

  /**
   * One record: its cell texts, and the text after its line feed (`None` when the input
   * ended instead). `None` overall when a closing quote is missing or is followed by
   * something other than a separator.
   */
  function ReadRecord(s: string): (r: Option<(seq<string>, Option<string>)>)
    ensures r.Some? && r.value.1.Some? ==> |r.value.1.value| < |s|
    decreases |s|
  {
    match ReadCell(s)
    case None => None
    case Some((text, rest)) =>
      if |rest| == 0 then Some(([text], None))
      else if rest[0] == '\n' then Some(([text], Some(rest[1..])))
      else if rest[0] == ',' then
        match ReadRecord(rest[1..])
        case None => None
        case Some((texts, more)) => Some(([text] + texts, more))
      else None
  }

  /** All records of a document. */
  function ReadDocument(s: string): Option<seq<seq<string>>>
    decreases |s|
  {
    match ReadRecord(s)
    case None => None
    case Some((texts, None)) => Some([texts])
    case Some((texts, Some(more))) =>
      match ReadDocument(more)
      case None => None
      case Some(records) => Some([texts] + records)
  }

  /** Stripping the outer quotes of a quoted cell and collapsing `""` back to `"`. */
  function Unquote(q: string): Option<string>
  {
    if |q| > 0 && q[0] == '"' then
      match ReadQuoted(q[1..])
      case Some((text, rest)) => if |rest| == 0 then Some(text) else None
      case None => None
    else None
  }

  // ---------------------------------------------------------------------------
  // Round trips
  // ---------------------------------------------------------------------------

  /** A text that may follow a cell: nothing, or a separator. */
  predicate AtBoundary(rest: string)
  {
    |rest| == 0 || rest[0] == ',' || rest[0] == '\n'
  }

  /** A doubled quote reads as one quote inside a quoted cell. */
  lemma ReadQuotedDoubled(tail: string, text: string, rest: string)
    requires ReadQuoted(tail) == Some((text, rest))
    ensures ReadQuoted("\"\"" + tail) == Some(("\"" + text, rest))
  {
    assert ("\"\"" + tail)[2..] == tail;
  }

  /** Any character but a quote is taken as it is inside a quoted cell. */
  lemma ReadQuotedChar(c: char, tail: string, text: string, rest: string)
    requires c != '"' && ReadQuoted(tail) == Some((text, rest))
    ensures ReadQuoted([c] + tail) == Some(([c] + text, rest))
  {
    assert ([c] + tail)[1..] == tail;
  }

  /** The escaped text and its closing quote read back as the text, whatever follows. */
  lemma {:induction false} ReadQuotedEscape(s: string, rest: string)
    requires |rest| == 0 || rest[0] != '"'
    ensures ReadQuoted(Escape(s) + "\"" + rest) == Some((s, rest))
  {
    if |s| == 0 {
      assert Escape(s) + "\"" + rest == "\"" + rest;
      assert ("\"" + rest)[1..] == rest;
    } else {
      ReadQuotedEscape(s[1..], rest);
      if s[0] == '"' {
        EscapedQuoteStep(s, rest);
      } else {
        EscapedCharStep(s, rest);
      }
    }
  }

  /** A leading quote is written doubled and read back as one quote. */
  lemma EscapedQuoteStep(s: string, rest: string)
    requires |s| > 0 && s[0] == '"'
    requires ReadQuoted(Escape(s[1..]) + "\"" + rest) == Some((s[1..], rest))
    ensures ReadQuoted(Escape(s) + "\"" + rest) == Some((s, rest))
  {
    var tail := Escape(s[1..]) + "\"" + rest;
    assert Escape(s) == "\"\"" + Escape(s[1..]);
    assert Escape(s) + "\"" + rest == "\"\"" + tail;
    ReadQuotedDoubled(tail, s[1..], rest);
    assert "\"" + s[1..] == s;
  }

  /** Any other leading character is written and read back as it is. */
  lemma EscapedCharStep(s: string, rest: string)
    requires |s| > 0 && s[0] != '"'
    requires ReadQuoted(Escape(s[1..]) + "\"" + rest) == Some((s[1..], rest))
    ensures ReadQuoted(Escape(s) + "\"" + rest) == Some((s, rest))
  {
    var tail := Escape(s[1..]) + "\"" + rest;
    assert Escape(s) == [s[0]] + Escape(s[1..]);
    assert Escape(s) + "\"" + rest == [s[0]] + tail;
    ReadQuotedChar(s[0], tail, s[1..], rest);
    assert [s[0]] + s[1..] == s;
  }

  /** Quoting, then stripping the quotes and collapsing `""`, gives back the text. */
  lemma UnquoteQuote(s: string)
    ensures Unquote(Quote(s)) == Some(s)
  {
    ReadQuotedEscape(s, "");
    assert Quote(s)[1..] == Escape(s) + "\"" + "";
  }

  lemma {:induction false} ReadBareText(s: string, rest: string)
    requires forall k :: 0 <= k < |s| ==> s[k] != ',' && s[k] != '\n'
    requires AtBoundary(rest)
    ensures ReadBare(s + rest) == (s, rest)
  {
    if |s| == 0 {
      assert s + rest == rest;
    } else {
      ReadBareText(s[1..], rest);
      assert (s + rest)[1..] == s[1..] + rest;
      assert [s[0]] + s[1..] == s;
    }
  }

  /** Every readable cell reads back as its text when a separator or the end follows it. */
  lemma ReadCellEncode(c: Cell, rest: string)
    requires CellReadable(c) && AtBoundary(rest)
    ensures ReadCell(Encode(c) + rest) == Some((c.text, rest))
  {
    match c
    case Quoted(s) => ReadQuotedCell(s, rest);
    case Verbatim(s) => ReadVerbatimCell(s, rest);
  }

  lemma ReadQuotedCell(s: string, rest: string)
    requires AtBoundary(rest)
    ensures ReadCell(Quote(s) + rest) == Some((s, rest))
  {
    ReadQuotedEscape(s, rest);
    assert (Quote(s) + rest)[1..] == Escape(s) + "\"" + rest;
  }

  lemma ReadVerbatimCell(s: string, rest: string)
    requires IsBare(s) && AtBoundary(rest)
    ensures ReadCell(s + rest) == Some((s, rest))
  {
    ReadBareText(s, rest);
    if |s| == 0 {
      assert s + rest == rest;
    } else {
      assert (s + rest)[0] == s[0];
    }
  }

  /** The written cells of a non-empty record read back as their texts. */
  lemma {:induction false} ReadRecordLine(cells: seq<Cell>, tail: string)
    requires |cells| > 0
    requires forall k :: 0 <= k < |cells| ==> CellReadable(cells[k])
    requires |tail| == 0 || tail[0] == '\n'
    ensures ReadRecord(Line(cells) + tail) ==
            Some((Values(cells), if |tail| == 0 then None else Some(tail[1..])))
  {
    if |cells| == 1 {
      assert Line(cells) == Encode(cells[0]);
      ReadCellEncode(cells[0], tail);
      assert Values(cells) == [cells[0].text];
    } else {
      ReadRecordLine(cells[1..], tail);
      ReadRecordStep(cells, tail);
    }
  }

  /** A first cell and a separator in front of a record that reads back: the whole reads back. */
  lemma ReadRecordStep(cells: seq<Cell>, tail: string)
    requires |cells| > 1 && CellReadable(cells[0])
    requires |tail| == 0 || tail[0] == '\n'
    requires ReadRecord(Line(cells[1..]) + tail) ==
             Some((Values(cells[1..]), if |tail| == 0 then None else Some(tail[1..])))
    ensures ReadRecord(Line(cells) + tail) ==
            Some((Values(cells), if |tail| == 0 then None else Some(tail[1..])))
  {
    var more := Line(cells[1..]) + tail;
    LineCons(cells);
    ConcatAssoc(Encode(cells[0]) + ",", Line(cells[1..]), tail);
    ConcatAssoc(Encode(cells[0]), ",", more);
    ReadCellEncode(cells[0], "," + more);
    assert ("," + more)[1..] == more;
    ValuesCons(cells);
  }

  /** A line of several cells is the first cell, a comma and the line of the others. */
  lemma LineCons(cells: seq<Cell>)
    requires |cells| > 1
    ensures Line(cells) == Encode(cells[0]) + "," + Line(cells[1..])
  {
    assert Encodes(cells)[1..] == Encodes(cells[1..]);
  }

  lemma ValuesCons(cells: seq<Cell>)
    requires |cells| > 0
    ensures Values(cells) == [cells[0].text] + Values(cells[1..])
  {
    assert Values(cells)[1..] == Values(cells[1..]);
  }

  /**
   * A document written from non-empty records whose verbatim cells hold no separator and
   * no quote reads back as the records' texts, record by record and cell by cell.
   */
  lemma {:induction false} ReadDocumentWritten(records: seq<seq<Cell>>)
    requires |records| > 0
    requires forall i :: 0 <= i < |records| ==> |records[i]| > 0
    requires forall i, k :: 0 <= i < |records| && 0 <= k < |records[i]| ==>
               CellReadable(records[i][k])
    ensures ReadDocument(Document(records)) ==
            Some(seq(|records|, i requires 0 <= i < |records| => Values(records[i])))
  {
    var lines := seq(|records|, i requires 0 <= i < |records| => Line(records[i]));
    if |records| == 1 {
      assert Document(records) == Line(records[0]) + "";
      ReadRecordLine(records[0], "");
      assert seq(|records|, i requires 0 <= i < |records| => Values(records[i])) == [Values(records[0])];
    } else {
      var rest := Document(records[1..]);
      assert lines[1..] == seq(|records[1..]|, i requires 0 <= i < |records[1..]| => Line(records[1..][i]));
      assert Document(records) == Line(records[0]) + ("\n" + rest);
      ReadRecordLine(records[0], "\n" + rest);
      assert ("\n" + rest)[1..] == rest;
      ReadDocumentWritten(records[1..]);
      assert seq(|records|, i requires 0 <= i < |records| => Values(records[i])) ==
             [Values(records[0])] +
             seq(|records[1..]|, i requires 0 <= i < |records[1..]| => Values(records[1..][i]));
    }
  }

  /** A document of two records reads back as the two records' texts. */
  lemma ReadTwoRecords(a: seq<Cell>, b: seq<Cell>)
    requires |a| > 0 && |b| > 0
    requires forall k :: 0 <= k < |a| ==> CellReadable(a[k])
    requires forall k :: 0 <= k < |b| ==> CellReadable(b[k])
    ensures ReadDocument(Document([a, b])) == Some([Values(a), Values(b)])
  {
    var records := [a, b];
    assert forall i, k :: 0 <= i < |records| && 0 <= k < |records[i]| ==>
             CellReadable(records[i][k]);
    ReadDocumentWritten(records);
    assert seq(|records|, i requires 0 <= i < |records| => Values(records[i])) == [Values(a), Values(b)];
  }

  /**
   * A verbatim cell holding a comma is written exactly like two cells: the text before
   * the comma and the text after it.
   */
  lemma LineSplitVerbatim(cells: seq<Cell>, k: nat, x: string, y: string)
    requires k < |cells| && cells[k] == Verbatim(x + "," + y)
    ensures Line(cells) == Line(cells[..k] + [Verbatim(x), Verbatim(y)] + cells[k + 1..])
  {
    var split := cells[..k] + [Verbatim(x), Verbatim(y)] + cells[k + 1..];
    assert Encodes(cells) == Encodes(cells[..k]) + [x + "," + y] + Encodes(cells[k + 1..]);
    assert Encodes(split) == Encodes(cells[..k]) + [x, y] + Encodes(cells[k + 1..]);
    JoinSplitPart(",", Encodes(cells[..k]), x, y, Encodes(cells[k + 1..]));
  }

  /** Records written as the same lines give the same document. */
  lemma DocumentOfSameLines(r1: seq<seq<Cell>>, r2: seq<seq<Cell>>)
    requires |r1| == |r2| && forall i :: 0 <= i < |r1| ==> Line(r1[i]) == Line(r2[i])
    ensures Document(r1) == Document(r2)
  {
    assert seq(|r1|, k requires 0 <= k < |r1| => Line(r1[k])) ==
           seq(|r2|, k requires 0 <= k < |r2| => Line(r2[k]));
  }
}
