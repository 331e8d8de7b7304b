/** The CSV bridge: `csvToJson`, a naive comma split of a header line and
    data lines, and `jsonToCsv`, which writes the first object's keys and one
    line of cells per element. Quoted fields are not recognised. */
module Csv {
  import opened Wrappers
  import opened Text
  import opened Values
  import opened Scalars
  import opened Encoder
  import opened Decoder
  import opened RoundTrip

  // ---------------------------------------------------------------------
  // csvToJson

  /** Cell `j` of a data line: the line split on commas, each piece trimmed,
      and `''` for a cell the line lacks (`values[index] || ''`). */
  function CsvField(line: string, j: nat): string {
    var values := TrimAll(Split(line, ','));
    if j < |values| then values[j] else ""
  }

  /** The parsed cells of a data line under `n` headers. */
  function CsvCells(line: string, n: nat): (r: seq<Value>)
    ensures |r| == n
    ensures forall j :: 0 <= j < n ==> r[j] == ParseValue(CsvField(line, j))
  {
    seq(n, j requires 0 <= j < n => ParseValue(CsvField(line, j)))
  }

  /** `headers.forEach((header, index) => obj[header] = …)` from `{}`. */
  function CsvRecord(line: string, headers: seq<string>): Value {
    Obj(RowObject(headers, CsvCells(line, |headers|)))
  }

  function CsvRecords(ls: seq<string>, headers: seq<string>): (r: seq<Value>)
    ensures |r| == |ls|
    ensures forall i :: 0 <= i < |ls| ==> r[i] == CsvRecord(ls[i], headers)
  {
    seq(|ls|, i requires 0 <= i < |ls| => CsvRecord(ls[i], headers))
  }

  /** The loop over the lines after the header line: record k is line
      k + 1. */
  function DataRecords(lines: seq<string>, headers: seq<string>): (r: seq<Value>)
    requires |lines| > 0
    ensures |r| == |lines| - 1
    ensures forall k {:trigger r[k]} :: 0 <= k < |r| ==> r[k] == CsvRecord(lines[k + 1], headers)
    ensures AllObjects(r)
  {
    var r := CsvRecords(lines[1..], headers);
    assert forall k {:trigger r[k]} :: 0 <= k < |r| ==> lines[1..][k] == lines[k + 1];
    r
  }

  /** `csvToJson(csv)`: the trimmed text split into lines; the first gives
      the headers, every later one an object. */
  function CsvToJson(csv: string): (r: Result<Value, Error>)
    ensures r.Failure? <==> '\n' !in Trim(csv)
    ensures r.Failure? ==> r.error == InvalidCsv
    ensures r.Success? ==> r.value.Arr? && AllObjects(r.value.items)
    ensures r.Success? ==> |r.value.items| == |Split(Trim(csv), '\n')| - 1
    ensures r.Success? ==>
      var lines := Split(Trim(csv), '\n');
      forall k {:trigger r.value.items[k]} :: 0 <= k < |r.value.items| ==>
        r.value.items[k] == CsvRecord(lines[k + 1], TrimAll(Split(lines[0], ',')))
  {
    var lines := Split(Trim(csv), '\n');
    SplitOnePiece(Trim(csv), '\n');
    if |lines| < 2 then Failure(InvalidCsv)
    else
      var headers := TrimAll(Split(lines[0], ','));
      Success(Arr(DataRecords(lines, headers)))
  }

  /** Every header names a key of each record, and no other key is there;
      a header's value is the cell under its last occurrence, and a cell the
      line lacks is the empty string. */
  lemma {:induction false} CsvRecordFields(line: string, headers: seq<string>, j: nat)
    requires j < |headers|
    requires forall m :: j < m < |headers| ==> headers[m] != headers[j]
    ensures var f := CsvRecord(line, headers).fields;
      && UniqueKeys(f)
      && (forall x :: x in Keys(f) <==> x in headers)
      && Lookup(f, headers[j]) == Some(ParseValue(CsvField(line, j)))
      && (j >= |Split(line, ',')| ==> Lookup(f, headers[j]) == Some(Str("")))
  {
    var cells := CsvCells(line, |headers|);
    RowObjectKeys(headers, cells);
    RowObjectLookup(headers, cells, j);
    if j >= |Split(line, ',')| {
      assert CsvField(line, j) == "";
      assert ParseValue("") == Str("");
    }
  }

  // ---------------------------------------------------------------------
  // jsonToCsv


  /** `Object.keys(v)` of an element that is not null. */
  function ObjectKeys(v: Value): seq<string> {
    if v.Obj? then Keys(v.fields) else []
  }

  /** `obj[header]` of an element that is not null. */
  function Member(v: Value, k: string): Value {
    if v.Obj? then
      match Lookup(v.fields, k)
      case Some(x) => x
      case None => Undef
    else Undef
  }

  /** A cell: empty for null and undefined, `String(value)` otherwise. */
  function CsvText(v: Value): string {
    if Nullish(v) then "" else JsString(v)
  }

  /** The line of one element: its value under each header. */
  function CsvLine(v: Value, headers: seq<string>): (r: string)
  {
    Join(seq(|headers|, j requires 0 <= j < |headers| => CsvText(Member(v, headers[j]))), ",")
  }

  function CsvLines(xs: seq<Value>, headers: seq<string>): (r: seq<string>)
    ensures |r| == |xs|
    ensures forall i :: 0 <= i < |xs| ==> r[i] == CsvLine(xs[i], headers)
  {
    seq(|xs|, i requires 0 <= i < |xs| => CsvLine(xs[i], headers))
  }

  /** `jsonToCsv(json)`: it needs a non-empty array; `Object.keys` of a null
      first element throws, and so does reading a header of a later null
      element, which happens only when there is a header to read. */
  function JsonToCsv(v: Value): (r: Result<string, Error>)
    ensures r.Failure? <==>
      || !v.Arr? || |v.items| == 0 || Nullish(v.items[0])
      || (|ObjectKeys(v.items[0])| > 0 && exists i :: 0 <= i < |v.items| && Nullish(v.items[i]))
    ensures (!v.Arr? || |v.items| == 0) ==> r == Failure(CsvExportRequiresArray)
    ensures r.Failure? && v.Arr? && |v.items| > 0 ==> r.error.TypeError?
  {
    if !v.Arr? || |v.items| == 0 then Failure(CsvExportRequiresArray)
    else if Nullish(v.items[0]) then Failure(TypeError("Cannot convert undefined or null to object"))
    else
      var headers := ObjectKeys(v.items[0]);
      if |headers| > 0 && exists i :: 0 <= i < |v.items| && Nullish(v.items[i]) then
        Failure(TypeError("Cannot read properties of null"))
      else Success(Join([Join(headers, ",")] + CsvLines(v.items, headers), "\n"))
  }

  /** Split back on commas, the line written for an element gives under
      each header that member's text, trimmed: empty for a null, undefined
      or missing member, `String(value)` otherwise, as long as no cell text
      holds a comma. */
  lemma {:induction false} CsvLineFields(v: Value, headers: seq<string>)
    requires |headers| > 0
    requires forall j :: 0 <= j < |headers| ==> ',' !in CsvText(Member(v, headers[j]))
    ensures forall j :: 0 <= j < |headers| ==>
      CsvField(CsvLine(v, headers), j) == Trim(CsvText(Member(v, headers[j])))
  {
    var a := seq(|headers|, j requires 0 <= j < |headers| => CsvText(Member(v, headers[j])));
    assert CsvLine(v, headers) == Join(a, ",");
    JoinedFields(a);
  }

  /** Comma-free texts joined with commas give back each text, trimmed, as
      a field. */
  lemma {:induction false} JoinedFields(parts: seq<string>)
    requires |parts| > 0 && forall i :: 0 <= i < |parts| ==> ',' !in parts[i]
    ensures forall j :: 0 <= j < |parts| ==> CsvField(Join(parts, ","), j) == Trim(parts[j])
  {
    assert "," == [','];
    SplitJoin(parts, ',');
  }

  /** A null, undefined or missing member is written as an empty cell, and
      `csvToJson` reads that cell back as the empty string. */
  lemma {:induction false} CsvBlankCell(v: Value, headers: seq<string>, j: nat)
    requires j < |headers| && Nullish(Member(v, headers[j]))
    requires forall m :: 0 <= m < |headers| ==> ',' !in CsvText(Member(v, headers[m]))
    requires forall m :: j < m < |headers| ==> headers[m] != headers[j]
    ensures CsvField(CsvLine(v, headers), j) == ""
    ensures Lookup(CsvRecord(CsvLine(v, headers), headers).fields, headers[j]) == Some(Str(""))
  {
    CsvLineFields(v, headers);
    CsvRecordFields(CsvLine(v, headers), headers, j);
    assert ParseValue("") == Str("");
  }

  // ---------------------------------------------------------------------
  // The round trip.

  /** A value that survives a CSV cell: a good scalar without a comma, and
      not null, which is written as an empty cell. */
  predicate CsvCellOk(v: Value) {
    CellOk(v, ',') && !v.Null?
  }

  /** Non-empty arrays of objects with the first element's word keys, in its
      order, whose cells survive the comma split. */
  predicate CsvTableOk(xs: seq<Value>) {
    && TableOk(xs, ',')
    && forall i, j :: 0 <= i < |xs| && 0 <= j < |xs[i].fields| ==> CsvCellOk(xs[i].fields[j].val)
  }

  /** `csvToJson(jsonToCsv(xs))` gives `xs` back. */
  lemma {:induction false} CsvRoundTrip(xs: seq<Value>)
    requires CsvTableOk(xs)
    ensures JsonToCsv(Arr(xs)).Success?
    ensures CsvToJson(JsonToCsv(Arr(xs)).value) == Success(Arr(xs))
  {
    var keys := Keys(xs[0].fields);
    CsvWrite(xs);
    CsvRowsRead(xs, keys);
    CsvHead(keys);
    var head, rows := Join(keys, ","), CsvLines(xs, keys);
    CsvDocument(head, rows);
    CsvRead(Join([head] + rows, "\n"), head, rows, keys, xs);
  }

  /** A good table is written as its header line and its data lines. */
  lemma {:induction false} CsvWrite(xs: seq<Value>)
    requires CsvTableOk(xs)
    ensures var keys := Keys(xs[0].fields);
      JsonToCsv(Arr(xs)) == Success(Join([Join(keys, ",")] + CsvLines(xs, keys), "\n"))
  {
    assert !Nullish(xs[0]);
    assert forall i :: 0 <= i < |xs| ==> !Nullish(xs[i]);
  }

  /** A text whose lines split back into the keys and into lines that read
      back as the elements gives the elements. */
  lemma {:induction false} CsvRead(csv: string, head: string, rows: seq<string>, keys: seq<string>, xs: seq<Value>)
    requires Trim(csv) == csv && Split(csv, '\n') == [head] + rows
    requires TrimAll(Split(head, ',')) == keys
    requires |rows| == |xs| > 0 && forall i :: 0 <= i < |rows| ==> CsvRecord(rows[i], keys) == xs[i]
    ensures CsvToJson(csv) == Success(Arr(xs))
  {
    RecordsAre(head, rows, keys, xs);
  }

  lemma {:induction false} RecordsAre(head: string, rows: seq<string>, keys: seq<string>, xs: seq<Value>)
    requires |rows| == |xs| && forall i :: 0 <= i < |rows| ==> CsvRecord(rows[i], keys) == xs[i]
    ensures ([head] + rows)[0] == head
    ensures DataRecords([head] + rows, keys) == xs
  {
    var lines := [head] + rows;
    assert lines[1..] == rows;
    assert DataRecords(lines, keys) == CsvRecords(rows, keys);
    assert CsvRecords(rows, keys) == xs;
  }

  /** The header line of word keys: a single line that splits and trims
      back into the keys. */
  lemma {:induction false} CsvHead(keys: seq<string>)
    requires |keys| > 0 && forall i :: 0 <= i < |keys| ==> IsKey(keys[i])
    ensures var head := Join(keys, ",");
      |head| > 0 && !IsSpace(head[0]) && '\n' !in head
      && TrimAll(Split(head, ',')) == keys
  {
    JoinEnds(keys, ",");
    JoinExcludes(keys, ",", '\n');
    HeaderFields(keys);
    KeysTrimmed(keys);
  }

  /** Every data line of a good table is a non-empty single line without
      surrounding whitespace that reads back as its element. */
  lemma {:induction false} CsvRowsRead(xs: seq<Value>, keys: seq<string>)
    requires CsvTableOk(xs) && keys == Keys(xs[0].fields)
    ensures forall i :: 0 <= i < |xs| ==>
      var line := CsvLines(xs, keys)[i];
      |line| > 0 && NoSurroundingSpace(line) && '\n' !in line && CsvRecord(line, keys) == xs[i]
  {
    forall i | 0 <= i < |xs|
      ensures var line := CsvLines(xs, keys)[i];
        |line| > 0 && NoSurroundingSpace(line) && '\n' !in line && CsvRecord(line, keys) == xs[i]
    {
      var f := xs[i].fields;
      assert RowOk(f, keys, ',');
      assert forall j :: 0 <= j < |f| ==> CsvCellOk(f[j].val);
      CsvLineCells(f, keys);
      CsvRecordRow(f, keys);
    }
  }

  /** The line `jsonToCsv` writes for a good row object is its cells joined
      with commas, as a comma-delimited tabular row is. */
  lemma {:induction false} CsvLineCells(f: seq<Entry>, keys: seq<string>)
    requires RowOk(f, keys, ',') && forall j :: 0 <= j < |f| ==> CsvCellOk(f[j].val)
    ensures CsvLine(Obj(f), keys) == Join(RowCells(f, keys), [','])
  {
    var a := seq(|keys|, j requires 0 <= j < |keys| => CsvText(Member(Obj(f), keys[j])));
    forall j | 0 <= j < |keys|
      ensures a[j] == RowCells(f, keys)[j]
    {
      LookupUnique(f, keys[j]);
      assert f[j].key == keys[j];
    }
    assert a == RowCells(f, keys);
    assert "," == [','];
  }

  /** The cells of a good row object, joined with commas, read back as it. */
  lemma {:induction false} CsvRecordRow(f: seq<Entry>, keys: seq<string>)
    requires |keys| > 0 && RowOk(f, keys, ',') && forall j :: 0 <= j < |f| ==> CsvCellOk(f[j].val)
    ensures var line := Join(RowCells(f, keys), [',']);
      |line| > 0 && NoSurroundingSpace(line) && '\n' !in line && CsvRecord(line, keys) == Obj(f)
  {
    var cells := RowCells(f, keys);
    RowCellsText(f, keys, Comma);
    JoinEnds(cells, [',']);
    CellsSingle(f, keys);
    SplitJoin(cells, ',');
    CsvCellsAre(Join(cells, [',']), cells);
    CellsObject(f, keys, cells);
  }

  /** No cell of a good row object holds a newline, nor does their line. */
  lemma {:induction false} CellsSingle(f: seq<Entry>, keys: seq<string>)
    requires RowOk(f, keys, ',')
    ensures '\n' !in Join(RowCells(f, keys), [','])
  {
    var cells := RowCells(f, keys);
    forall j | 0 <= j < |cells|
      ensures '\n' !in cells[j]
    {
      LookupUnique(f, keys[j]);
      assert f[j].key == keys[j];
      ScalarSingle(f[j].val);
    }
    JoinExcludes(cells, [','], '\n');
  }

  /** A line that splits into trimmed cells has those cells, none missing. */
  lemma {:induction false} CsvCellsAre(line: string, cells: seq<string>)
    requires Split(line, ',') == cells
    requires forall j :: 0 <= j < |cells| ==> NoSurroundingSpace(cells[j])
    ensures CsvCells(line, |cells|) == Cells(cells, |cells|)
  {
    forall j | 0 <= j < |cells|
      ensures CsvCells(line, |cells|)[j] == Cells(cells, |cells|)[j]
    {
      TrimUnchanged(cells[j]);
    }
  }

  /** A header line and data lines, none holding a newline, joined with
      newlines: trimming changes nothing and splitting gives the lines. */
  lemma {:induction false} CsvDocument(head: string, rows: seq<string>)
    requires |head| > 0 && !IsSpace(head[0]) && '\n' !in head
    requires |rows| > 0
    requires forall i :: 0 <= i < |rows| ==> |rows[i]| > 0 && NoSurroundingSpace(rows[i]) && '\n' !in rows[i]
    ensures var csv := Join([head] + rows, "\n");
      Trim(csv) == csv && Split(csv, '\n') == [head] + rows
  {
    var lines := [head] + rows;
    assert lines[0] == head && lines[|lines| - 1] == rows[|rows| - 1];
    assert forall i :: 0 <= i < |lines| ==> '\n' !in lines[i] by {
      forall i | 0 <= i < |lines|
        ensures '\n' !in lines[i]
      {
        if i > 0 {
          assert lines[i] == rows[i - 1];
        }
      }
    }
    JoinedLines(lines);
  }

  /** Lines with no newline, the first starting and the last ending with a
      non-space, joined with newlines: trimming changes nothing and
      splitting gives the lines back. */
  lemma {:induction false} JoinedLines(lines: seq<string>)
    requires |lines| > 0 && |lines[0]| > 0 && !IsSpace(lines[0][0])
    requires |lines[|lines| - 1]| > 0 && NoSurroundingSpace(lines[|lines| - 1])
    requires forall i :: 0 <= i < |lines| ==> '\n' !in lines[i]
    ensures Trim(Join(lines, "\n")) == Join(lines, "\n")
    ensures Split(Join(lines, "\n"), '\n') == lines
  {
    JoinEnds(lines, "\n");
    TrimUnchanged(Join(lines, "\n"));
    assert "\n" == ['\n'];
    SplitJoin(lines, '\n');
  }
}
