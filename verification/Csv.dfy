/** Cells and rows as analytics-export.ts writes them, and a reader that follows the grammar of RFC 4180 section 2. */
module Csv {
  import opened Wrappers
  import opened Text

  const CRLF: string := "\r\n"

  datatype Cell = Text(text: string) | Number(n: int)

  function CellText(c: Cell): string {
    match c
    case Text(text) => text
    case Number(n) => IntText(n)
  }

  /** The first character that is not white space is one a spreadsheet reads as the start of a formula. */
  predicate StartsFormula(s: string) {
    var t := TrimStart(s);
    t != "" && (t[0] == '=' || t[0] == '+' || t[0] == '@' || t[0] == '-')
  }

  function Guard(s: string): string {
    if StartsFormula(s) then "'" + s else s
  }

  function DoubleQuotes(s: string): string {
    if s == "" then "" else (if s[0] == '"' then "\"\"" else [s[0]]) + DoubleQuotes(s[1..])
  }

  function EscapeCell(c: Cell): string {
    "\"" + DoubleQuotes(Guard(CellText(c))) + "\""
  }

  type Record = seq<Cell>

  /** A record without cells is the blank separator line. */
  function Row(r: Record): string {
    if r == [] then ""
    else if |r| == 1 then EscapeCell(r[0])
    else EscapeCell(r[0]) + "," + Row(r[1..])
  }

  function Lines(records: seq<Record>): (lines: seq<string>)
    ensures |lines| == |records| && forall i :: 0 <= i < |records| ==> lines[i] == Row(records[i])
  {
    seq(|records|, i requires 0 <= i < |records| => Row(records[i]))
  }

  lemma LinesConcat(a: seq<Record>, b: seq<Record>)
    ensures Lines(a + b) == Lines(a) + Lines(b)
  {
  }

  /** Lines joined by line breaks, with a last line break after them. */
  function FileText(records: seq<Record>): string {
    Join(Lines(records), CRLF) + CRLF
  }

  /* ---------------------------------------------------------------------- */
  /* Reading                                                                */
  /* ---------------------------------------------------------------------- */

  datatype Read<T> = Read(value: T, rest: string)

  predicate Plain(c: char) {
    c != ',' && c != '"' && c != '\r' && c != '\n'
  }

  /** A non-escaped field: as many plain characters as there are. */
  function ReadPlain(s: string): Read<string> {
    if s == "" || !Plain(s[0]) then Read("", s)
    else
      var more := ReadPlain(s[1..]);
      Read([s[0]] + more.value, more.rest)
  }

  /** The inside of an escaped field, up to its closing quote; two quotes stand for one. */
  function ReadQuoted(s: string): Option<Read<string>>
    decreases |s|
  {
    if s == "" then None
    else if s[0] == '"' then
      if |s| > 1 && s[1] == '"' then Prefix('"', ReadQuoted(s[2..])) else Some(Read("", s[1..]))
    else Prefix(s[0], ReadQuoted(s[1..]))
  }

  function Prefix(c: char, r: Option<Read<string>>): Option<Read<string>> {
    match r
    case Some(read) => Some(Read([c] + read.value, read.rest))
    case None => None
  }

  function ReadField(s: string): Option<Read<string>> {
    if s != "" && s[0] == '"' then ReadQuoted(s[1..]) else Some(ReadPlain(s))
  }

  lemma {:induction false} QuotedIsShorter(s: string)
    ensures ReadQuoted(s).Some? ==> |ReadQuoted(s).value.rest| < |s|
    decreases |s|
  {
    if s == "" {
    } else {
      if s[0] == '"' {
        if |s| > 1 && s[1] == '"' { QuotedIsShorter(s[2..]); }
      } else {
        QuotedIsShorter(s[1..]);
      }
    }
  }

  lemma {:induction false} PlainIsShorter(s: string)
    ensures |ReadPlain(s).rest| <= |s|
  {
    if s == "" || !Plain(s[0]) {
    } else {
      PlainIsShorter(s[1..]);
    }
  }

  lemma FieldIsShorter(s: string)
    ensures ReadField(s).Some? ==> |ReadField(s).value.rest| <= |s|
  {
    if s != "" && s[0] == '"' { QuotedIsShorter(s[1..]); } else { PlainIsShorter(s); }
  }

  /** Fields separated by commas, up to the end or a line break. */
  function ReadRecord(s: string): (r: Option<Read<seq<string>>>)
    ensures r.Some? ==> |r.value.rest| <= |s|
    decreases |s|
  {
    FieldIsShorter(s);
    match ReadField(s)
    case None => None
    case Some(field) =>
      if field.rest != "" && field.rest[0] == ',' then
        match ReadRecord(field.rest[1..])
        case None => None
        case Some(more) => Some(Read([field.value] + more.value, more.rest))
      else Some(Read([field.value], field.rest))
  }

  /** Records separated by line breaks; the last one may or may not have one. */
  function ReadFile(s: string): Option<seq<seq<string>>>
    decreases |s|
  {
    match ReadRecord(s)
    case None => None
    case Some(record) =>
      if record.rest == "" || record.rest == CRLF then Some([record.value])
      else if CRLF <= record.rest then
        match ReadFile(record.rest[2..])
        case None => None
        case Some(more) => Some([record.value] + more)
      else None
  }

  /* ---------------------------------------------------------------------- */
  /* Reading what was written                                               */
  /* ---------------------------------------------------------------------- */

  /** What a reader should get for a record; an empty line is a record of one empty field. */
  function Fields(r: Record): (fields: seq<string>)
    ensures r != [] ==> |fields| == |r| && forall i :: 0 <= i < |r| ==> fields[i] == Guard(CellText(r[i]))
  {
    if r == [] then [""] else seq(|r|, i requires 0 <= i < |r| => Guard(CellText(r[i])))
  }

  function AllFields(records: seq<Record>): (all: seq<seq<string>>)
    ensures |all| == |records| && forall i :: 0 <= i < |records| ==> all[i] == Fields(records[i])
  {
    seq(|records|, i requires 0 <= i < |records| => Fields(records[i]))
  }

  lemma {:induction false} QuotedReadsBack(t: string, rest: string)
    requires rest == "" || rest[0] != '"'
    ensures ReadQuoted(DoubleQuotes(t) + "\"" + rest) == Some(Read(t, rest))
    decreases |t|
  {
    var s := DoubleQuotes(t) + "\"" + rest;
    if t == "" {
      assert s == "\"" + rest;
      assert s[1..] == rest;
    } else {
      var head, more := if t[0] == '"' then "\"\"" else [t[0]], DoubleQuotes(t[1..]);
      var inner := more + "\"" + rest;
      QuotedReadsBack(t[1..], rest);
      assert DoubleQuotes(t) == head + more;
      hide DoubleQuotes;
      Regroup(head, more, "\"", rest);
      assert s == head + inner;
      assert s[|head|..] == inner;
      assert t == [t[0]] + t[1..];
    }
  }

  lemma CellReadsBack(c: Cell, rest: string)
    requires rest == "" || rest[0] != '"'
    ensures ReadField(EscapeCell(c) + rest) == Some(Read(Guard(CellText(c)), rest))
  {
    hide Guard, CellText;
    var s := EscapeCell(c) + rest;
    assert s[1..] == DoubleQuotes(Guard(CellText(c))) + "\"" + rest;
    QuotedReadsBack(Guard(CellText(c)), rest);
  }

  /** A row, cell by cell, with what follows it. */
  lemma RowParts(r: Record, rest: string)
    ensures |r| == 0 ==> Row(r) + rest == rest
    ensures |r| == 1 ==> Row(r) == EscapeCell(r[0])
    ensures |r| >= 2 ==> Row(r) + rest == EscapeCell(r[0]) + ("," + (Row(r[1..]) + rest))
  {
    hide EscapeCell;
    if |r| == 0 {
      assert "" + rest == rest;
    } else if |r| >= 2 {
      var cell, more := EscapeCell(r[0]), Row(r[1..]);
      assert Row(r) == cell + "," + more;
      hide Row;
      Regroup(cell, ",", more, rest);
    }
  }

  lemma Regroup(a: string, b: string, c: string, d: string)
    ensures a + b + c + d == a + (b + (c + d)) == a + (b + c + d)
  {
  }

  lemma {:induction false} RecordReadsBack(r: Record, rest: string)
    requires CRLF <= rest
    ensures ReadRecord(Row(r) + rest) == Some(Read(Fields(r), rest))
    decreases |r|
  {
    hide EscapeCell, ReadField, Guard, CellText, Row;
    RowParts(r, rest);
    if r == [] {
      EmptyField(rest);
    } else if |r| == 1 {
      CellReadsBack(r[0], rest);
      assert Fields(r) == [Guard(CellText(r[0]))];
    } else {
      var tail := "," + (Row(r[1..]) + rest);
      CellReadsBack(r[0], tail);
      assert tail[1..] == Row(r[1..]) + rest;
      RecordReadsBack(r[1..], rest);
      assert Fields(r) == [Guard(CellText(r[0]))] + Fields(r[1..]);
    }
  }

  lemma EmptyField(rest: string)
    requires CRLF <= rest
    ensures ReadField(rest) == Some(Read("", rest)) && rest[0] == '\r'
  {
    assert rest[0] == CRLF[0];
  }

  /** Whatever records are written, reading the file gives every record back, cell by guarded cell. */
  lemma {:induction false} FileReadsBack(records: seq<Record>)
    requires records != []
    ensures ReadFile(FileText(records)) == Some(AllFields(records))
    decreases |records|
  {
    hide Row, ReadRecord, Fields;
    var lines := Lines(records);
    if |records| == 1 {
      RecordReadsBack(records[0], CRLF);
      assert FileText(records) == Row(records[0]) + CRLF;
      assert AllFields(records) == [Fields(records[0])];
    } else {
      var rest := CRLF + FileText(records[1..]);
      assert Lines(records[1..]) == lines[1..];
      assert FileText(records) == Row(records[0]) + rest;
      RecordReadsBack(records[0], rest);
      assert rest[2..] == FileText(records[1..]);
      assert |FileText(records[1..])| >= 2;
      FileReadsBack(records[1..]);
      assert AllFields(records) == [Fields(records[0])] + AllFields(records[1..]);
    }
  }

  /** In no cell that is read back the first visible character is one of the four that start a formula. */
  lemma NoFormulas(records: seq<Record>, i: nat, j: nat, k: nat)
    requires i < |records| && j < |Fields(records[i])|
    ensures !StartsFormula(AllFields(records)[i][j])
    ensures FirstVisible(AllFields(records)[i][j], k) ==> AllFields(records)[i][j][k] !in "=+@-"
  {
    if FirstVisible(AllFields(records)[i][j], k) {
      FormulaAt(AllFields(records)[i][j], k);
      FormulaCharacter(AllFields(records)[i][j][k]);
    }
    if records[i] != [] {
      GuardedIsSafe(CellText(records[i][j]));
    }
  }

  /** The first character that is not white space is at position i. */
  predicate FirstVisible(s: string, i: nat) {
    i < |s| && !IsSpace(s[i]) && forall j :: 0 <= j < i ==> IsSpace(s[j])
  }

  lemma {:induction false} FormulaAt(s: string, i: nat)
    requires FirstVisible(s, i)
    ensures TrimStart(s) == s[i..]
    decreases i
  {
    hide IsSpace;
    if i == 0 {
    } else {
      assert forall j :: 0 <= j < i - 1 ==> s[1..][j] == s[j + 1];
      FormulaAt(s[1..], i - 1);
    }
  }

  /** What is written differently: a text that starts, after any white space, with one of =, +, @ and -. */
  lemma GuardedIff(s: string, i: nat)
    ensures FirstVisible(s, i) ==> Guard(s) == if s[i] in "=+@-" then ['\''] + s else s
    ensures (forall j :: 0 <= j < |s| ==> IsSpace(s[j])) ==> Guard(s) == s
  {
    if FirstVisible(s, i) {
      FormulaAt(s, i);
      FormulaCharacter(s[i]);
    }
    if TrimStart(s) != "" {
      assert !IsSpace(s[|s| - |TrimStart(s)|]);
    }
    hide IsSpace, TrimStart;
  }

  lemma FormulaCharacter(c: char)
    ensures c in "=+@-" <==> c == '=' || c == '+' || c == '@' || c == '-'
  {
  }

  /** Two texts are written alike exactly when they are equal or one is the other with the quote already in front. */
  lemma GuardCollidesIff(s: string, t: string)
    ensures Guard(s) == Guard(t) <==> s == t || (StartsFormula(s) && t == "'" + s) || (StartsFormula(t) && s == "'" + t)
  {
    hide StartsFormula;
    QuotedIsGuarded(s);
    QuotedIsGuarded(t);
    assert ("'" + s)[1..] == s && ("'" + t)[1..] == t;
  }

  lemma QuotedIsGuarded(s: string)
    ensures !StartsFormula("'" + s)
  {
    assert TrimStart("'" + s)[0] == '\'';
  }

  lemma GuardedIsSafe(s: string)
    ensures !StartsFormula(Guard(s))
  {
    hide StartsFormula;
    QuotedIsGuarded(s);
  }
}
