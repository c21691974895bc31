/** The tokenising shared by both parsers of services/dataService.ts: a line is
    split on tabs, header cells are normalised into keys, and each data line
    becomes a record from header key to trimmed cell. */
module SheetRows {
  import opened Text
  import opened Optional

  /** A data line after tokenising: the `item` object the parsers fill. */
  type Record = map<string, string>

  /** `item[key]` read where JavaScript treats it as a string: a missing key
      gives `undefined`, which every use treats like the empty string. */
  function Get(item: Record, key: string): string {
    if key in item then item[key] else ""
  }

  /** `item[key]` read where `undefined` is passed on as it is. */
  function Lookup(item: Record, key: string): Option<string> {
    if key in item then Some(item[key]) else None
  }

  /** One header cell as a key: trimmed, lower-cased, and every whitespace run
      replaced by `runReplacement` ("" for resource sheets, "_" for worksheets). */
  function HeaderKey(cell: string, runReplacement: string): string {
    ReplaceWhitespaceRuns(ToLower(Trim(cell)), runReplacement)
  }

  /** The header line's keys, one per tab-separated cell, in column order. */
  function HeaderKeys(line: string, runReplacement: string): (keys: seq<string>)
    ensures |keys| == |Split(line, '\t')|
  {
    var cells := Split(line, '\t');
    seq(|cells|, i requires 0 <= i < |cells| => HeaderKey(cells[i], runReplacement))
  }

  /** Keys hold no whitespace and no upper-case ASCII letter. */
  lemma HeaderKeyShape(cell: string, runReplacement: string)
    requires NoWhitespace(runReplacement) && NoUpper(runReplacement)
    ensures NoWhitespace(HeaderKey(cell, runReplacement))
    ensures NoUpper(HeaderKey(cell, runReplacement))
  {
  }

  /** For resource sheets the key is the trimmed, lower-cased cell with all
      its whitespace characters deleted. */
  lemma ResourceHeaderKeyDeletesWhitespace(cell: string)
    ensures HeaderKey(cell, "") == NonWhitespace(ToLower(Trim(cell)))
  {
    RemoveWhitespaceIsFilter(ToLower(Trim(cell)));
  }

  /** A data line that the parsers skip: it has no cells, or one empty cell. */
  predicate IsBlankLine(cells: seq<string>) {
    |cells| == 0 || (|cells| == 1 && cells[0] == "")
  }

  /** The skip test holds exactly for the empty line. */
  lemma BlankLineIff(line: string)
    ensures IsBlankLine(Split(line, '\t')) <==> line == ""
  {
    var cells := Split(line, '\t');
    SplitJoin(line, '\t');
    if |cells| == 1 {
      assert Join(cells, '\t') == cells[0];
    }
  }

  /** Every cell of a line, trimmed. */
  function TrimCells(cells: seq<string>): (values: seq<string>)
    ensures |values| == |cells|
  {
    if cells == [] then [] else [Trim(cells[0])] + TrimCells(cells[1..])
  }

  lemma {:induction false} TrimCellsAt(cells: seq<string>, i: nat)
    requires i < |cells|
    ensures TrimCells(cells)[i] == Trim(cells[i])
  {
    if i > 0 {
      TrimCellsAt(cells[1..], i - 1);
    }
  }

  /** A record value over the trimmed cells: the cell, or "" past the end of
      the line. */
  function CellValue(values: seq<string>, index: nat): string {
    if index < |values| then values[index] else ""
  }

  /** The record after the first `n` header columns have been assigned, in order. */
  function RecordOf(headers: seq<string>, values: seq<string>, n: nat): Record
    requires n <= |headers|
  {
    if n == 0 then map[] else RecordOf(headers, values, n - 1)[headers[n - 1] := CellValue(values, n - 1)]
  }

  /** One record value: the trimmed cell, or "" past the end of the line. */
  method TrimmedCell(cells: seq<string>, index: nat) returns (value: string)
    ensures value == CellValue(TrimCells(cells), index)
  {
    value := "";
    if index < |cells| {
      TrimCellsAt(cells, index);
      value := Trim(cells[index]);
    }
    value := OrElse(value, "");
  }

  /** The record of a line, built header by header as the parsers do: each
      header gets the trimmed cell at its position, a later duplicate header
      overwriting an earlier one. */
  method BuildRecord(headers: seq<string>, cells: seq<string>) returns (item: Record)
    ensures item == RecordOf(headers, TrimCells(cells), |headers|)
  {
    item := map[];
    var index := 0;
    while index < |headers|
      invariant 0 <= index <= |headers|
      invariant item == RecordOf(headers, TrimCells(cells), index)
    {
      var value := TrimmedCell(cells, index);
      item := item[headers[index] := value];
      index := index + 1;
    }
  }

  /** Every header is a key of the record, and nothing else is. */
  lemma {:induction false} RecordKeys(headers: seq<string>, values: seq<string>, n: nat)
    requires n <= |headers|
    ensures RecordOf(headers, values, n).Keys == set j | 0 <= j < n :: headers[j]
  {
    if n > 0 {
      RecordKeys(headers, values, n - 1);
      var prev := set j | 0 <= j < n - 1 :: headers[j];
      var all := set j | 0 <= j < n :: headers[j];
      assert all == prev + {headers[n - 1]} by {
        forall x | x in all ensures x in prev + {headers[n - 1]} {
          var j :| 0 <= j < n && x == headers[j];
          if j < n - 1 { assert x in prev; }
        }
      }
    }
  }

  /** A header maps to the cell of its LAST column: when two headers are equal,
      the later column wins. */
  lemma {:induction false} RecordLastWins(headers: seq<string>, values: seq<string>, n: nat, j: nat)
    requires j < n <= |headers|
    requires forall k :: j < k < n ==> headers[k] != headers[j]
    ensures headers[j] in RecordOf(headers, values, n)
    ensures RecordOf(headers, values, n)[headers[j]] == CellValue(values, j)
  {
    if j < n - 1 {
      RecordLastWins(headers, values, n - 1, j);
    }
  }

  /** The record depends on the line only through the cells of the header columns. */
  lemma {:induction false} RecordDependsOnHeaderCells(headers: seq<string>, values: seq<string>, values': seq<string>, n: nat)
    requires n <= |headers|
    requires forall j :: 0 <= j < n ==> CellValue(values, j) == CellValue(values', j)
    ensures RecordOf(headers, values, n) == RecordOf(headers, values', n)
  {
    if n > 0 {
      RecordDependsOnHeaderCells(headers, values, values', n - 1);
    }
  }

  /** Cells beyond the header count are ignored. */
  lemma RecordIgnoresExtraCells(headers: seq<string>, cells: seq<string>)
    requires |headers| <= |cells|
    ensures RecordOf(headers, TrimCells(cells), |headers|) == RecordOf(headers, TrimCells(cells[..|headers|]), |headers|)
  {
    var values, values' := TrimCells(cells), TrimCells(cells[..|headers|]);
    forall j | 0 <= j < |headers|
      ensures CellValue(values, j) == CellValue(values', j)
    {
      TrimCellsAt(cells, j);
      TrimCellsAt(cells[..|headers|], j);
      assert cells[..|headers|][j] == cells[j];
    }
    RecordDependsOnHeaderCells(headers, values, values', |headers|);
  }

  /** A header whose column is missing from a short line maps to "". */
  lemma ShortLineCellIsEmpty(headers: seq<string>, cells: seq<string>, j: nat)
    requires |cells| <= j < |headers|
    requires forall k :: j < k < |headers| ==> headers[k] != headers[j]
    ensures Get(RecordOf(headers, TrimCells(cells), |headers|), headers[j]) == ""
  {
    RecordLastWins(headers, TrimCells(cells), |headers|, j);
  }

  /** A header maps to its own column's trimmed cell when no later column has the same header. */
  lemma CellOfHeader(headers: seq<string>, cells: seq<string>, j: nat)
    requires j < |headers| && j < |cells|
    requires forall k :: j < k < |headers| ==> headers[k] != headers[j]
    ensures Get(RecordOf(headers, TrimCells(cells), |headers|), headers[j]) == Trim(cells[j])
  {
    RecordLastWins(headers, TrimCells(cells), |headers|, j);
    TrimCellsAt(cells, j);
  }

  /** The record of a data line, or None when the line is skipped as blank. */
  function LineRecord(line: string, headers: seq<string>): Option<Record> {
    var cells := Split(line, '\t');
    if IsBlankLine(cells) then None else Some(RecordOf(headers, TrimCells(cells), |headers|))
  }

  /** The record of every line of the text, index for index; entry 0 belongs
      to the header line and is never read. */
  function LineRecords(rows: seq<string>, headers: seq<string>): (records: seq<Option<Record>>)
    ensures |records| == |rows|
  {
    seq(|rows|, i requires 0 <= i < |rows| => LineRecord(rows[i], headers))
  }
}
