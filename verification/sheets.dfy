/** `rowsToObjects` of the Google Sheets adapter: the first row of a sheet
    names the columns and every later row becomes a record keyed by those
    names. The Sheets client itself is outside the model. */
module Sheets {

  /** A sheet record: column name to cell text. */
  type Record = map<string, string>

  /** `row[index] || ''`: a missing or empty cell reads as "". */
  function Cell(row: seq<string>, index: nat): (r: string)
    ensures index < |row| ==> r == row[index]
    ensures index >= |row| ==> r == ""
  {
    if index < |row| then row[index] else ""
  }

  /** `headers[i]` is the last column carrying its name among the first `n`. */
  predicate LastColumn(headers: seq<string>, n: nat, i: nat)
    requires n <= |headers|
  {
    i < n && forall j :: i < j < n ==> headers[j] != headers[i]
  }

  /** The record built from the first `n` headers, assigned left to right. */
  function RecordUpTo(headers: seq<string>, row: seq<string>, n: nat): Record
    requires n <= |headers|
  {
    if n == 0 then map[] else RecordUpTo(headers, row, n - 1)[headers[n - 1] := Cell(row, n - 1)]
  }

  /** The keys are exactly the first `n` header names. */
  lemma {:induction false} RecordKeys(headers: seq<string>, row: seq<string>, n: nat)
    requires n <= |headers|
    ensures RecordUpTo(headers, row, n).Keys == set i | 0 <= i < n :: headers[i]
  {
    if n > 0 {
      RecordKeys(headers, row, n - 1);
      assert (set i | 0 <= i < n :: headers[i]) == (set i | 0 <= i < n - 1 :: headers[i]) + {headers[n - 1]};
    }
  }

  /** A name's value is the cell under its last column: a repeated header
      keeps its later column's value. */
  lemma {:induction false} RecordValues(headers: seq<string>, row: seq<string>, n: nat, i: nat)
    requires n <= |headers| && LastColumn(headers, n, i)
    ensures headers[i] in RecordUpTo(headers, row, n)
    ensures RecordUpTo(headers, row, n)[headers[i]] == Cell(row, i)
  {
    if i < n - 1 {
      RecordValues(headers, row, n - 1, i);
    }
  }

  /** One data row as a record over all the headers. */
  function RowToRecord(headers: seq<string>, row: seq<string>): (r: Record)
    ensures r.Keys == set h | h in headers
    ensures forall i :: 0 <= i < |headers| && LastColumn(headers, |headers|, i) ==> r[headers[i]] == Cell(row, i)
  {
    var r := RecordUpTo(headers, row, |headers|);
    RecordKeys(headers, row, |headers|);
    assert (set i | 0 <= i < |headers| :: headers[i]) == set h | h in headers by {
      forall h | h in headers ensures h in set i | 0 <= i < |headers| :: headers[i] {
        var i :| 0 <= i < |headers| && headers[i] == h;
      }
    }
    forall i | 0 <= i < |headers| && LastColumn(headers, |headers|, i) ensures r[headers[i]] == Cell(row, i) {
      RecordValues(headers, row, |headers|, i);
    }
    r
  }

  /** `rowsToObjects`: nothing for a sheet without data rows; otherwise one
      record per data row, in order, over the header row's names. */
  function RowsToObjects(rows: seq<seq<string>>): (r: seq<Record>)
    ensures |rows| < 2 ==> r == []
    ensures |rows| >= 2 ==> |r| == |rows| - 1
    ensures |rows| >= 2 ==> forall k :: 0 <= k < |r| ==> r[k].Keys == set h | h in rows[0]
    ensures |rows| >= 2 ==> forall k, i :: 0 <= k < |r| && 0 <= i < |rows[0]| && LastColumn(rows[0], |rows[0]|, i) ==>
              r[k][rows[0][i]] == Cell(rows[k + 1], i)
  {
    if |rows| < 2 then []
    else seq(|rows| - 1, k requires 0 <= k < |rows| - 1 => RowToRecord(rows[0], rows[k + 1]))
  }

  /** Cells to the right of the last header are never read. */
  lemma {:induction false} ExtraCellsIgnored(headers: seq<string>, row: seq<string>, n: nat)
    requires n <= |headers| <= |row|
    ensures RecordUpTo(headers, row, n) == RecordUpTo(headers, row[..|headers|], n)
  {
    if n > 0 {
      ExtraCellsIgnored(headers, row, n - 1);
      assert Cell(row, n - 1) == Cell(row[..|headers|], n - 1);
    }
  }

  /** A record depends only on the cells under the headers. */
  lemma RowToRecordTruncates(headers: seq<string>, row: seq<string>)
    requires |headers| <= |row|
    ensures RowToRecord(headers, row) == RowToRecord(headers, row[..|headers|])
  {
    ExtraCellsIgnored(headers, row, |headers|);
  }
}
