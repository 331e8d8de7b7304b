/** When `toonToJson(jsonToToon(x))` gives `x` back: objects whose keys are
    words and whose values read back as themselves, with at most one nested
    block or table, written last; and root arrays of uniform objects. */
module RoundTrip {
  import opened Wrappers
  import opened Text
  import opened Numbers
  import opened Values
  import opened Scalars
  import opened Encoder
  import opened Decoder


  /** Text that survives a `key: text` line: it is not a literal, carries no
      surrounding whitespace and no line terminator. */
  predicate TextOk(s: string) {
    |s| > 0 && NoSurroundingSpace(s) && PlainString(s)
    && forall i :: 0 <= i < |s| ==> !IsLineTerminator(s[i])
  }

  /** A scalar whose printed text reads back as itself. */
  predicate ScalarOk(v: Value) {
    v.Null? || v.Bool? || (v.Num? && Normalized(v.n)) || (v.Str? && TextOk(v.s))
  }

  /** A scalar that can also sit in a row split on `c`. */
  predicate CellOk(v: Value, c: char) {
    ScalarOk(v) && (v.Str? ==> c !in v.s)
  }

  /** An object whose keys are `keys`, once each, with cells that survive a
      row split on `c`. */
  predicate RowOk(f: seq<Entry>, keys: seq<string>, c: char) {
    Keys(f) == keys && UniqueKeys(f) && forall j :: 0 <= j < |f| ==> CellOk(f[j].val, c)
  }

  /** A non-empty array of objects that all have the first one's word keys,
      in its order, with cells that survive a row split on `c`. */
  predicate TableOk(xs: seq<Value>, c: char) {
    && |xs| > 0 && AllObjects(xs) && |xs[0].fields| > 0
    && (forall j :: 0 <= j < |xs[0].fields| ==> IsKey(xs[0].fields[j].key))
    && RowsOk(xs, Keys(xs[0].fields), c)
  }

  /** Entries that read back as themselves: word keys, once each, scalar
      values, except that the last value may be a nested object of the same
      kind or a table. A nested block or a table must come last because the
      decoder's dedent test ends every enclosing block at the line after it. */
  predicate EntriesOk(f: seq<Entry>, c: char)
    decreases f, 1
  {
    && UniqueKeys(f)
    && (forall i :: 0 <= i < |f| ==> IsKey(f[i].key))
    && (forall i :: 0 <= i < |f| - 1 ==> ScalarOk(f[i].val))
    && (|f| > 0 ==> LastOk(f[|f| - 1].val, c))
  }

  /** What the last entry of a good object may hold. */
  predicate LastOk(v: Value, c: char)
    decreases v, 0
  {
    ScalarOk(v) || (v.Obj? && EntriesOk(v.fields, c)) || (v.Arr? && TableOk(v.items, c))
  }

  // ---------------------------------------------------------------------
  // The decoder reads the encoder's lines.

  /** The printed text of a good scalar is a non-empty single line with no
      surrounding whitespace, which reads back as the scalar. */
  lemma {:induction false} ScalarText(v: Value)
    requires ScalarOk(v)
    ensures var t := JsString(v);
      |t| > 0 && NoSurroundingSpace(t) && ParseValue(t) == v
      && (forall i :: 0 <= i < |t| ==> !IsLineTerminator(t[i]))
  {
    ParseValueScalar(v);
    ScalarShape(v);
  }

  lemma {:induction false} ScalarShape(v: Value)
    requires ScalarOk(v)
    ensures var t := JsString(v);
      |t| > 0 && NoSurroundingSpace(t) && forall i :: 0 <= i < |t| ==> !IsLineTerminator(t[i])
  {
    match v
    case Num(d) => NumberText(DecimalText(d));
    case Str(s) =>
    case Null => WordText("null");
    case Bool(b) => WordText(if b then "true" else "false");
  }

  lemma {:induction false} WordText(t: string)
    requires t == "null" || t == "true" || t == "false"
    ensures |t| > 0 && NoSurroundingSpace(t) && forall i :: 0 <= i < |t| ==> !IsLineTerminator(t[i])
  {
  }

  /** Text of decimal characters is a single line without whitespace. */
  lemma {:induction false} NumberText(t: string)
    requires |t| > 0 && NumberChars(t)
    ensures NoSurroundingSpace(t) && forall i :: 0 <= i < |t| ==> !IsLineTerminator(t[i])
  {
  }

  /** `pad key: text` is a key-value line. */
  lemma {:induction false} ClassifyKeyValue(pad: string, key: string, text: string)
    requires AllSpaces(pad) && IsKey(key)
    requires |text| > 0 && !IsSpace(text[0])
    requires forall i :: 0 <= i < |text| ==> !IsLineTerminator(text[i])
    ensures Classify(pad + key + ": " + text) == KeyValueLine(key, text)
  {
    assert pad + key + ": " + text == pad + key + (": " + text);
    PadStrip(pad, key, ": " + text);
    KeyStrip(key, ": " + text);
    ValueStrip(text);
  }

  /** Past the padding of `pad key rest` comes the key. */
  lemma {:induction false} PadStrip(pad: string, key: string, rest: string)
    requires AllSpaces(pad) && IsKey(key)
    ensures Indent(pad + key + rest) == |pad| && (pad + key + rest)[|pad|..] == key + rest
  {
    var line := pad + key + rest;
    assert line[..|pad|] == pad && line[|pad|] == key[0];
    IndentIs(line, |pad|);
    assert line[|pad|..] == key + rest;
  }

  /** The word run of `key rest` is the key, when `rest` starts with a
      colon. */
  lemma {:induction false} KeyStrip(key: string, rest: string)
    requires IsKey(key) && |rest| > 0 && rest[0] == ':'
    ensures WordRun(key + rest) == |key|
    ensures (key + rest)[..|key|] == key && (key + rest)[|key|..] == rest
  {
    var s := key + rest;
    assert s[..|key|] == key && s[|key|] == ':';
    WordRunIs(s, |key|);
    assert s[|key|..] == rest;
  }

  /** `: text` is no header and not a bare colon; the value after the
      colon and its one space is the text. */
  lemma {:induction false} ValueStrip(text: string)
    requires |text| > 0 && !IsSpace(text[0])
    ensures var after := ": " + text;
      && MatchHeader(after).None? && after != ":" && |after| >= 2 && after[0] == ':'
      && Indent(after[1..]) == 1 && after[1..][1..] == text
  {
    var after := ": " + text;
    var tail := " " + text;
    assert after[0] == ':' && after[1..] == tail;
    assert tail[..1] == " ";
    IndentIs(tail, 1);
    assert tail[1..] == text;
  }

  /** `pad key:` opens a nested block. */
  lemma {:induction false} ClassifyNested(pad: string, key: string)
    requires AllSpaces(pad) && IsKey(key)
    ensures Classify(pad + key + ":") == NestedLine(key)
  {
    var line := pad + key + ":";
    assert line[..|pad|] == pad;
    IndentIs(line, |pad|);
    var rest := key + ":";
    assert line[|pad|..] == rest;
    assert rest[..|key|] == key;
    WordRunIs(rest, |key|);
    assert rest[|key|..] == ":";
  }

  /** The braces part of a header: the text between them and the delimiter
      marker are read back. */
  lemma {:induction false} BracesMatch(j: string, d: Delimiter)
    requires |j| > 0 && '}' !in j
    ensures var braces := "{" + j + "}" + d.Marker() + ":";
      MatchBraces(braces) == Some(HeaderMatch(j, d, |braces|))
  {
    var braces := "{" + j + "}" + d.Marker() + ":";
    assert braces[1..][..|j|] == j;
    IndexOfIs(braces[1..], '}', |j|);
    assert braces[1..|j| + 1] == j;
  }

  /** The header the encoder writes matches the header pattern, with the
      keys joined by commas between the braces and the chosen delimiter. */
  lemma {:induction false} HeaderMatches(keys: seq<string>, n: nat, o: Options)
    requires |keys| > 0 && forall i :: 0 <= i < |keys| ==> IsKey(keys[i])
    ensures MatchHeader(Header(keys, n, o))
      == Some(HeaderMatch(Join(keys, ","), o.delimiter, |Header(keys, n, o)|))
  {
    JoinedKeys(keys);
    BracesMatch(Join(keys, ","), o.delimiter);
    if o.showLengthMarkers {
      MarkedHeader(keys, n, o);
    } else {
      assert Header(keys, n, o) == Braces(keys, o);
    }
  }

  /** Keys joined by commas: not empty, and no closing brace. */
  lemma {:induction false} JoinedKeys(keys: seq<string>)
    requires |keys| > 0 && forall i :: 0 <= i < |keys| ==> IsKey(keys[i])
    ensures |Join(keys, ",")| > 0 && '}' !in Join(keys, ",")
  {
    assert IsKey(keys[0]) && IsKey(keys[|keys| - 1]);
    JoinEnds(keys, ",");
    JoinExcludes(keys, ",", '}');
  }

  /** The length marker in front of the braces is read over. */
  lemma {:induction false} MarkedHeader(keys: seq<string>, n: nat, o: Options)
    requires o.showLengthMarkers
    requires MatchBraces(Braces(keys, o)) == Some(HeaderMatch(Join(keys, ","), o.delimiter, |Braces(keys, o)|))
    ensures MatchHeader(Header(keys, n, o))
      == Some(HeaderMatch(Join(keys, ","), o.delimiter, |Header(keys, n, o)|))
  {
    MarkedMatch(NatText(n), Braces(keys, o), Join(keys, ","), o.delimiter);
    assert Header(keys, n, o) == "[" + NatText(n) + "]" + Braces(keys, o);
  }

  /** A count in brackets before braces that match whole: the header
      matches whole, with the fields and delimiter of the braces. */
  lemma {:induction false} MarkedMatch(digits: string, rest: string, fields: string, d: Delimiter)
    requires |digits| > 0 && AllDigits(digits)
    requires MatchBraces(rest) == Some(HeaderMatch(fields, d, |rest|))
    ensures MatchHeader("[" + digits + "]" + rest) == Some(HeaderMatch(fields, d, |"[" + digits + "]" + rest|))
  {
    var s := "[" + digits + "]" + rest;
    LengthMarkerIgnored(digits, rest);
    assert |s| == |rest| + |digits| + 2;
    assert HeaderMatch(fields, d, |rest|).(len := |rest| + |digits| + 2) == HeaderMatch(fields, d, |s|);
  }

  /** `pad key[n]{…}:` opens a table under `key`. */
  lemma {:induction false} ClassifyTabular(pad: string, key: string, keys: seq<string>, n: nat, o: Options)
    requires AllSpaces(pad) && IsKey(key)
    requires |keys| > 0 && forall i :: 0 <= i < |keys| ==> IsKey(keys[i])
    ensures Classify(pad + key + Header(keys, n, o))
      == TabularLine(key, HeaderMatch(Join(keys, ","), o.delimiter, |Header(keys, n, o)|))
  {
    var h := Header(keys, n, o);
    HeaderMatches(keys, n, o);
    var line := pad + key + h;
    var rest := key + h;
    Regroup(pad, key, h);
    PrefixSuffix(pad, rest);
    IndentIs(line, |pad|);
    assert rest[..|key|] == key;
    WordRunIs(rest, |key|);
    assert rest[|key|..] == h;
  }

  /** No delimiter occurs in the printed text of a good cell. */
  lemma {:induction false} CellTextExcludes(v: Value, d: Delimiter)
    requires CellOk(v, d.Char())
    ensures d.Char() !in JsString(v)
  {
    match v
    case Num(n) =>
      var t := DecimalText(n);
      assert forall i :: 0 <= i < |t| ==> t[i] != d.Char();
    case Str(_) =>
    case Null =>
    case Bool(_) =>
  }

  /** The cells of a good row are the printed texts of its values, in order;
      each is non-empty, trimmed, free of the delimiter, and reads back as its
      value. */
  lemma {:induction false} RowCellsText(f: seq<Entry>, keys: seq<string>, d: Delimiter)
    requires RowOk(f, keys, d.Char())
    ensures var cells := RowCells(f, keys);
      forall j :: 0 <= j < |cells| ==>
        && |cells[j]| > 0 && NoSurroundingSpace(cells[j]) && d.Char() !in cells[j]
        && ParseValue(cells[j]) == f[j].val
  {
    var cells := RowCells(f, keys);
    forall j | 0 <= j < |cells|
      ensures |cells[j]| > 0 && NoSurroundingSpace(cells[j]) && d.Char() !in cells[j]
      ensures ParseValue(cells[j]) == f[j].val
    {
      LookupUnique(f, keys[j]);
      assert cells[j] == JsString(f[j].val);
      ScalarText(f[j].val);
      CellTextExcludes(f[j].val, d);
    }
  }

  /** A row trims to its joined cells. */
  lemma {:induction false} RowTrim(pad: string, cells: seq<string>, c: char)
    requires AllSpaces(pad) && |cells| > 0
    requires forall j :: 0 <= j < |cells| ==> |cells[j]| > 0 && NoSurroundingSpace(cells[j])
    ensures var row := pad + Join(cells, [c]);
      Trim(row) == Join(cells, [c]) && !IsBlank(row) && Indent(row) == |pad|
  {
    var t := Join(cells, [c]);
    JoinEnds(cells, [c]);
    TrimPadded(pad, t);
    var row := pad + t;
    assert row[..|pad|] == pad;
    assert row[|pad|] == t[0];
    IndentIs(row, |pad|);
  }

  /** The decoder reads a good row back as the object it was written from. */
  lemma {:induction false} RowRoundTrip(f: seq<Entry>, keys: seq<string>, o: Options, depth: nat)
    requires |keys| > 0 && RowOk(f, keys, o.delimiter.Char())
    ensures var row := Pad(o, depth) + Join(RowCells(f, keys), [o.delimiter.Char()]);
      !IsBlank(row) && Indent(row) == o.indentation * depth
      && RowValue(row, keys, o.delimiter) == Obj(f)
  {
    var c := o.delimiter.Char();
    var cells := RowCells(f, keys);
    RowCellsText(f, keys, o.delimiter);
    RowTrim(Pad(o, depth), cells, c);
    SplitJoin(cells, c);
    CellsObject(f, keys, cells);
  }

  /** Cells that read back as an object's values, under its keys, give the
      object. */
  lemma {:induction false} CellsObject(f: seq<Entry>, keys: seq<string>, cells: seq<string>)
    requires Keys(f) == keys && UniqueKeys(f) && |cells| == |keys|
    requires forall j :: 0 <= j < |cells| ==> NoSurroundingSpace(cells[j]) && ParseValue(cells[j]) == f[j].val
    ensures RowObject(keys, Cells(cells, |keys|)) == f
  {
    var vals := Cells(cells, |keys|);
    forall j | 0 <= j < |keys|
      ensures vals[j] == f[j].val
    {
      TrimUnchanged(cells[j]);
    }
    assert Distinct(keys);
    RowObjectZip(keys, vals);
    assert Zip(keys, vals) == f;
  }

  /** Objects that are all good rows under `keys`. */
  predicate RowsOk(xs: seq<Value>, keys: seq<string>, c: char) {
    AllObjects(xs) && forall i :: 0 <= i < |xs| ==> RowOk(xs[i].fields, keys, c)
  }

  /** The rows of a good table read back as its elements. */
  lemma {:induction false} TableRows(xs: seq<Value>, keys: seq<string>, o: Options, depth: nat)
    requires |keys| > 0 && RowsOk(xs, keys, o.delimiter.Char())
    ensures BlockRows(Rows(xs, keys, o, depth), keys, o.delimiter) == xs
  {
    var rs := Rows(xs, keys, o, depth);
    RowsRead(xs, keys, o, depth);
    BlockRowsNonBlank(rs, keys, o.delimiter);
  }

  /** Each row of a good table is non-blank and reads back as its element. */
  lemma {:induction false} RowsRead(xs: seq<Value>, keys: seq<string>, o: Options, depth: nat)
    requires |keys| > 0 && RowsOk(xs, keys, o.delimiter.Char())
    ensures forall i :: 0 <= i < |xs| ==>
      !IsBlank(Rows(xs, keys, o, depth)[i]) && RowValue(Rows(xs, keys, o, depth)[i], keys, o.delimiter) == xs[i]
  {
    forall i | 0 <= i < |xs|
      ensures !IsBlank(Rows(xs, keys, o, depth)[i]) && RowValue(Rows(xs, keys, o, depth)[i], keys, o.delimiter) == xs[i]
    {
      RowRoundTrip(xs[i].fields, keys, o, depth + 1);
    }
  }

  /** The root form reads every line after the header line: without
      blank lines, one row per later line, in order. */
  lemma {:induction false} RootRows(lines: seq<string>)
    requires |lines| > 0 && MatchHeader(Trim(lines[0])).Some?
    requires forall i :: 1 <= i < |lines| ==> !IsBlank(lines[i])
    ensures var h := MatchHeader(Trim(lines[0])).value;
      var r := ParseRootArray(lines);
      && r.Success? && |r.value.items| == |lines| - 1
      && forall i :: 1 <= i < |lines| ==>
        r.value.items[i - 1] == RowValue(lines[i], TrimAll(Split(h.fields, ',')), h.delimiter)
  {
    var h := MatchHeader(Trim(lines[0])).value;
    var keys := TrimAll(Split(h.fields, ','));
    var rs := lines[1..];
    LaterNonBlank(lines);
    BlockRowsNonBlank(rs, keys, h.delimiter);
    assert ParseRootArray(lines) == Success(Arr(BlockRows(rs, keys, h.delimiter)));
    RowsAfterHeader(lines, BlockRows(rs, keys, h.delimiter), keys, h.delimiter);
  }

  lemma {:induction false} LaterNonBlank(lines: seq<string>)
    requires |lines| > 0
    requires forall i :: 1 <= i < |lines| ==> !IsBlank(lines[i])
    ensures forall i :: 0 <= i < |lines[1..]| ==> !IsBlank(lines[1..][i])
  {
    forall i | 0 <= i < |lines[1..]|
      ensures !IsBlank(lines[1..][i])
    {
      assert lines[1..][i] == lines[i + 1];
    }
  }

  /** Rows read from the lines after the first, numbered by line. */
  lemma {:induction false} RowsAfterHeader(lines: seq<string>, r: seq<Value>, keys: seq<string>, d: Delimiter)
    requires |lines| > 0 && |r| == |lines| - 1
    requires forall i :: 0 <= i < |r| ==> r[i] == RowValue(lines[1..][i], keys, d)
    ensures forall i :: 1 <= i < |lines| ==> r[i - 1] == RowValue(lines[i], keys, d)
  {
    forall i | 1 <= i < |lines|
      ensures r[i - 1] == RowValue(lines[i], keys, d)
    {
      assert lines[1..][i - 1] == lines[i];
    }
  }

  /** Without blank lines, every line is a row. */
  lemma {:induction false} BlockRowsNonBlank(rs: seq<string>, keys: seq<string>, d: Delimiter)
    requires forall i :: 0 <= i < |rs| ==> !IsBlank(rs[i])
    ensures |BlockRows(rs, keys, d)| == |rs|
    ensures forall i :: 0 <= i < |rs| ==> BlockRows(rs, keys, d)[i] == RowValue(rs[i], keys, d)
  {
    BlockRowsAreRowValues(rs, keys, d);
    RowValuesIndex(rs, keys, d);
  }

  /** Each line read as a row, in order. */
  function RowValues(rs: seq<string>, keys: seq<string>, d: Delimiter): seq<Value> {
    if |rs| == 0 then [] else [RowValue(rs[0], keys, d)] + RowValues(rs[1..], keys, d)
  }

  lemma {:induction false} BlockRowsAreRowValues(rs: seq<string>, keys: seq<string>, d: Delimiter)
    requires forall i :: 0 <= i < |rs| ==> !IsBlank(rs[i])
    ensures BlockRows(rs, keys, d) == RowValues(rs, keys, d)
    decreases |rs|
  {
    if |rs| > 0 {
      assert !IsBlank(rs[0]);
      BlockRowsAreRowValues(rs[1..], keys, d);
    }
  }

  lemma {:induction false} RowValuesIndex(rs: seq<string>, keys: seq<string>, d: Delimiter)
    ensures |RowValues(rs, keys, d)| == |rs|
    ensures forall i :: 0 <= i < |rs| ==> RowValues(rs, keys, d)[i] == RowValue(rs[i], keys, d)
    decreases |rs|
  {
    if |rs| > 0 {
      RowValuesIndex(rs[1..], keys, d);
      var r := RowValues(rs, keys, d);
      ConsShift(RowValue(rs[0], keys, d), RowValues(rs[1..], keys, d));
      forall i | 1 <= i < |rs|
        ensures r[i] == RowValue(rs[i], keys, d)
      {
        assert rs[1..][i - 1] == rs[i];
      }
    }
  }

  lemma {:induction false} RowsIndent(xs: seq<Value>, keys: seq<string>, o: Options, depth: nat)
    requires |keys| > 0 && RowsOk(xs, keys, o.delimiter.Char())
    ensures forall i :: 0 <= i < |xs| ==> Indent(Rows(xs, keys, o, depth)[i]) == o.indentation * (depth + 1)
  {
    forall i | 0 <= i < |xs|
      ensures Indent(Rows(xs, keys, o, depth)[i]) == o.indentation * (depth + 1)
    {
      RowRoundTrip(xs[i].fields, keys, o, depth + 1);
    }
  }

  /** Rows all indented deeper than the header are read to the end. */
  lemma {:induction false} ParseRowsToEnd(lines: seq<string>, a: nat, h: nat, fields: seq<string>, d: Delimiter)
    requires a <= |lines|
    requires forall m :: a <= m < |lines| ==> Indent(lines[m]) > h
    ensures ParseRows(lines, a, h, fields, d) == (BlockRows(lines[a..], fields, d), |lines|)
    decreases |lines| - a
  {
    if a < |lines| {
      ParseRowsToEnd(lines, a + 1, h, fields, d);
    }
  }

  /** The comma-joined keys of a header split back into the keys. */
  lemma {:induction false} HeaderFields(keys: seq<string>)
    requires |keys| > 0 && forall i :: 0 <= i < |keys| ==> IsKey(keys[i])
    ensures Split(Join(keys, ","), ',') == keys
  {
    assert forall i :: 0 <= i < |keys| ==> ',' !in keys[i];
    assert "," == [','];
    SplitJoin(keys, ',');
  }

  /** A key not yet gathered is appended by `Put`. */
  lemma {:induction false} FreshKey(acc: seq<Entry>, f: seq<Entry>)
    requires |f| > 0 && UniqueKeys(acc + f)
    ensures Put(acc, f[0].key, f[0].val) == acc + [f[0]]
    ensures UniqueKeys((acc + [f[0]]) + f[1..]) && (acc + [f[0]]) + f[1..] == acc + f
  {
    var g := acc + f;
    assert forall m :: 0 <= m < |acc| ==> Keys(acc)[m] == g[m].key;
    assert g[|acc|] == f[0];
    assert (acc + [f[0]]) + f[1..] == g;
  }

  /** A good object's tail is good. */
  lemma {:induction false} EntriesOkTail(f: seq<Entry>, c: char)
    requires |f| > 0 && EntriesOk(f, c)
    ensures EntriesOk(f[1..], c)
    ensures |f| > 1 ==> ScalarOk(f[0].val)
  {
    var t := f[1..];
    assert forall i :: 0 <= i < |t| ==> t[i] == f[i + 1];
  }

  /** The line of a scalar entry: indented by its depth, and read as a
      key-value pair whose value parses back to the entry's value. */
  lemma {:induction false} ScalarLine(e: Entry, o: Options, depth: nat)
    requires ScalarOk(e.val) && IsKey(e.key)
    ensures var pad := Pad(o, depth);
      var text := JsString(e.val);
      var line := pad + e.key + ": " + text;
      && !IsBlank(line) && Indent(line) == o.indentation * depth
      && Classify(line) == KeyValueLine(e.key, text)
      && ParseValue(text) == e.val
  {
    ScalarText(e.val);
    ClassifyKeyValue(Pad(o, depth), e.key, JsString(e.val));
    PairIndent(Pad(o, depth), e.key, JsString(e.val));
  }

  /** A `key: text` line is indented by its padding. */
  lemma {:induction false} PairIndent(pad: string, key: string, text: string)
    requires AllSpaces(pad) && IsKey(key)
    ensures !IsBlank(pad + key + ": " + text) && Indent(pad + key + ": " + text) == |pad|
  {
    var line := pad + key + ": " + text;
    assert line[..|pad|] == pad && line[|pad|] == key[0];
    KeyIndent(line, pad);
  }

  /** A line that starts with a word character after its indentation. */
  lemma {:induction false} KeyIndent(line: string, pad: string)
    requires AllSpaces(pad) && |pad| < |line| && line[..|pad|] == pad && IsWordChar(line[|pad|])
    ensures !IsBlank(line) && Indent(line) == |pad|
  {
    IndentIs(line, |pad|);
  }

  /** A key line is indented by its padding. */
  lemma {:induction false} LineIndent(pad: string, key: string, rest: string)
    requires AllSpaces(pad) && IsKey(key)
    ensures !IsBlank(pad + key + rest) && Indent(pad + key + rest) == |pad|
  {
    var line := pad + key + rest;
    assert line[..|pad|] == pad && line[|pad|] == key[0];
    KeyIndent(line, pad);
  }

  /** A scalar entry is one `key: text` line. */
  lemma {:induction false} ScalarLines(e: Entry, o: Options, depth: nat)
    requires ScalarOk(e.val)
    ensures EntryLines(e, o, depth) == [Pad(o, depth) + e.key + ": " + JsString(e.val)]
  {
    assert ConvertValue(e.val, o, 0) == JsString(e.val);
    assert EntryPushes(e, o, depth) == [Pad(o, depth) + e.key + ": " + JsString(e.val)];
  }

  /** A table entry is its header line followed by its rows. */
  lemma {:induction false} TabularLines(e: Entry, o: Options, depth: nat)
    requires e.val.Arr? && |e.val.items| > 0 && AllObjects(e.val.items)
    ensures var xs := e.val.items;
      var keys := Keys(xs[0].fields);
      EntryLines(e, o, depth) == [Pad(o, depth) + e.key + Header(keys, |xs|, o)] + Rows(xs, keys, o, depth)
  {
  }

  // ---------------------------------------------------------------------
  // The decoder's loop, driven by what each line yields.

  /** From line `i` on, with `acc` gathered, the lines hold the entries `f`:
      each entry starts on a non-blank line indented by `ind`, and one turn
      of the loop there appends it, taking one line, or all remaining lines
      for the last entry. */
  predicate Reads(lines: seq<string>, i: nat, acc: seq<Entry>, f: seq<Entry>, ind: nat)
    decreases |f|
  {
    if |f| == 0 then i == |lines|
    else
      && i < |lines| && !IsBlank(lines[i]) && Indent(lines[i]) == ind
      && Step(lines, i, acc) == (acc + [f[0]], if |f| == 1 then |lines| else i + 1)
      && (|f| > 1 ==> Reads(lines, i + 1, acc + [f[0]], f[1..], ind))
  }

  /** Lines that hold the entries `f` are read as `f` appended to `acc`, up
      to the end of the lines, when the line before them is indented no
      deeper. */
  lemma {:induction false} ParseReads(lines: seq<string>, start: nat, i: nat, acc: seq<Entry>, f: seq<Entry>, ind: nat)
    requires start <= i <= |lines| && Reads(lines, i, acc, f, ind)
    requires i > start ==> Indent(lines[i - 1]) <= ind
    ensures ParseBlock(lines, start, i, acc) == (acc + f, |lines|)
    decreases |f|
  {
    if |f| == 0 {
      Shift(acc, f);
    } else {
      ReadsHead(lines, start, i, acc, f, ind);
      if |f| > 1 {
        ParseReads(lines, start, i + 1, acc + [f[0]], f[1..], ind);
      }
    }
  }

  /** The first line of `f` moves its entry onto `acc`. */
  lemma {:induction false} ReadsHead(lines: seq<string>, start: nat, i: nat, acc: seq<Entry>, f: seq<Entry>, ind: nat)
    requires start <= i <= |lines| && |f| > 0 && Reads(lines, i, acc, f, ind)
    requires i > start ==> Indent(lines[i - 1]) <= ind
    ensures i < |lines| && Indent(lines[i]) <= ind
    ensures |f| == 1 ==> ParseBlock(lines, start, i, acc) == (acc + f, |lines|)
    ensures |f| > 1 ==> Reads(lines, i + 1, acc + [f[0]], f[1..], ind)
    ensures |f| > 1 ==> ParseBlock(lines, start, i, acc) == ParseBlock(lines, start, i + 1, acc + [f[0]])
    ensures |f| > 1 ==> (acc + [f[0]]) + f[1..] == acc + f
  {
    EnterLine(lines, start, i, acc);
    Shift(acc, f);
  }

  /** Moving the first element of `f` onto `a` keeps `a + f`. */
  lemma {:induction false} Shift<T>(a: seq<T>, f: seq<T>)
    ensures |f| == 0 ==> a + f == a
    ensures |f| > 0 ==> (a + [f[0]]) + f[1..] == a + f
    ensures |f| == 1 ==> a + f == a + [f[0]]
  {
  }

  /** One turn of the loop on a line that is neither blank nor a dedent. */
  lemma {:induction false} EnterLine(lines: seq<string>, start: nat, i: nat, acc: seq<Entry>)
    requires start <= i < |lines| && !IsBlank(lines[i])
    requires i > start ==> Indent(lines[i]) >= Indent(lines[i - 1])
    ensures ParseBlock(lines, start, i, acc)
      == ParseBlock(lines, start, Step(lines, i, acc).1, Step(lines, i, acc).0)
  {
  }

  /** One turn of the loop on a key-value line. */
  lemma {:induction false} StepKeyValue(lines: seq<string>, i: nat, acc: seq<Entry>, key: string, text: string)
    requires i < |lines| && Classify(lines[i]) == KeyValueLine(key, text)
    ensures Step(lines, i, acc) == (Put(acc, key, ParseValue(text)), i + 1)
  {
  }

  /** One turn of the loop on a nested key. */
  lemma {:induction false} StepNested(lines: seq<string>, i: nat, acc: seq<Entry>, key: string)
    requires i < |lines| && Classify(lines[i]) == NestedLine(key)
    ensures var b := ParseBlock(lines, i + 1, i + 1, []);
      Step(lines, i, acc) == (Put(acc, key, Obj(b.0)), b.1)
  {
  }

  /** One turn of the loop on a table header. */
  lemma {:induction false} StepTabular(lines: seq<string>, i: nat, acc: seq<Entry>, key: string, h: HeaderMatch)
    requires i < |lines| && Classify(lines[i]) == TabularLine(key, h)
    ensures var rows := ParseRows(lines, i + 1, Indent(lines[i]), Split(h.fields, ','), h.delimiter);
      Step(lines, i, acc) == (Put(acc, key, Arr(rows.0)), rows.1)
  {
  }

  /** A block that is one blank line is the empty object. */
  lemma {:induction false} EmptyBlock(lines: seq<string>, i: nat)
    requires i + 1 == |lines| && IsBlank(lines[i])
    ensures ParseBlock(lines, i, i, []) == ([], |lines|)
  {
  }

  // ---------------------------------------------------------------------
  // The encoder's lines hold the entries they were written from.

  /** The lines of a good object, after any lines `P`, hold its entries. */
  lemma {:induction false} EncodeReads(P: seq<string>, f: seq<Entry>, acc: seq<Entry>, o: Options, depth: nat)
    requires o.indentation > 0 && EntriesOk(f, o.delimiter.Char()) && UniqueKeys(acc + f)
    ensures Reads(P + ObjectLines(f, o, depth), |P|, acc, f, o.indentation * depth)
    decreases f, 1
  {
    if |f| == 0 {
      assert P + ObjectLines(f, o, depth) == P;
    } else {
      FreshKey(acc, f);
      EntriesOkTail(f, o.delimiter.Char());
      if |f| == 1 && !ScalarOk(f[0].val) {
        if f[0].val.Obj? {
          NestedReads(P, f, acc, o, depth);
        } else {
          TabularReads(P, f, acc, o, depth);
        }
      } else {
        ScalarReads(P, f, acc, o, depth);
        if |f| > 1 {
          var line := Pad(o, depth) + f[0].key + ": " + JsString(f[0].val);
          EncodeReads(P + [line], f[1..], acc + [f[0]], o, depth);
        }
      }
    }
  }

  /** A scalar entry's line is read as the entry and the loop moves to the
      next line. */
  lemma {:induction false} ScalarReads(P: seq<string>, f: seq<Entry>, acc: seq<Entry>, o: Options, depth: nat)
    requires |f| > 0 && ScalarOk(f[0].val) && IsKey(f[0].key)
    requires Put(acc, f[0].key, f[0].val) == acc + [f[0]]
    ensures var line := Pad(o, depth) + f[0].key + ": " + JsString(f[0].val);
      var lines := P + ObjectLines(f, o, depth);
      && lines == (P + [line]) + ObjectLines(f[1..], o, depth)
      && |P| < |lines| && !IsBlank(lines[|P|]) && Indent(lines[|P|]) == o.indentation * depth
      && Step(lines, |P|, acc) == (acc + [f[0]], |P| + 1)
      && (|f| == 1 ==> |lines| == |P| + 1)
  {
    var e := f[0];
    var line := Pad(o, depth) + e.key + ": " + JsString(e.val);
    ScalarEntryLines(P, f, o, depth);
    ScalarLine(e, o, depth);
    var lines := P + ObjectLines(f, o, depth);
    StepKeyValue(lines, |P|, acc, e.key, JsString(e.val));
  }

  /** The lines after `P` start with a scalar entry's one line. */
  lemma {:induction false} ScalarEntryLines(P: seq<string>, f: seq<Entry>, o: Options, depth: nat)
    requires |f| > 0 && ScalarOk(f[0].val)
    ensures var line := Pad(o, depth) + f[0].key + ": " + JsString(f[0].val);
      var lines := P + ObjectLines(f, o, depth);
      && lines == (P + [line]) + ObjectLines(f[1..], o, depth)
      && |P| < |lines| && lines[|P|] == line
      && (|f| == 1 ==> |lines| == |P| + 1)
  {
    ScalarLines(f[0], o, depth);
    var line := Pad(o, depth) + f[0].key + ": " + JsString(f[0].val);
    assert ObjectLines(f, o, depth) == [line] + ObjectLines(f[1..], o, depth);
    if |f| == 1 {
      assert ObjectLines(f[1..], o, depth) == [];
    }
    AppendHead(P, line, ObjectLines(f[1..], o, depth));
  }

  /** A line between two runs of lines. */
  lemma {:induction false} AppendHead(P: seq<string>, line: string, rest: seq<string>)
    ensures P + ([line] + rest) == (P + [line]) + rest
    ensures |P + ([line] + rest)| == |P| + 1 + |rest| && (P + ([line] + rest))[|P|] == line
  {
  }

  /** A nested object as the last entry: its `key:` line, read as the
      entry, the loop then at the end of the lines. */
  lemma {:induction false} NestedReads(P: seq<string>, f: seq<Entry>, acc: seq<Entry>, o: Options, depth: nat)
    requires o.indentation > 0 && |f| == 1 && IsKey(f[0].key)
    requires f[0].val.Obj? && EntriesOk(f[0].val.fields, o.delimiter.Char())
    requires Put(acc, f[0].key, f[0].val) == acc + [f[0]]
    ensures Reads(P + ObjectLines(f, o, depth), |P|, acc, f, o.indentation * depth)
    decreases f, 0
  {
    var e := f[0];
    var g := e.val.fields;
    var pad := Pad(o, depth);
    var hdr := pad + e.key + ":";
    var block := BlockLines(g, o, depth + 1);
    assert ObjectLines(f, o, depth) == [hdr] + block;
    var lines := P + ObjectLines(f, o, depth);
    var P' := P + [hdr];
    assert lines == P' + block;
    assert lines[|P|] == hdr;
    ClassifyNested(pad, e.key);
    LineIndent(pad, e.key, ":");
    NestedBlock(P', g, o, depth + 1);
    StepNested(lines, |P|, acc, e.key);
    assert Entry(e.key, Obj(g)) == e;
  }

  /** The block of a good nested object is read as its entries, to the end
      of the lines. */
  lemma {:induction false} NestedBlock(P: seq<string>, g: seq<Entry>, o: Options, depth: nat)
    requires o.indentation > 0 && EntriesOk(g, o.delimiter.Char())
    ensures var lines := P + BlockLines(g, o, depth);
      ParseBlock(lines, |P|, |P|, []) == (g, |lines|)
    decreases g, 2
  {
    var lines := P + BlockLines(g, o, depth);
    if |g| == 0 {
      assert lines[|P|] == "";
      EmptyBlock(lines, |P|);
    } else {
      assert [] + g == g;
      EncodeReads(P, g, [], o, depth);
      ParseReads(lines, |P|, |P|, [], g, o.indentation * depth);
    }
  }

  /** A table as the last entry: its header line, read with all its rows as
      the entry, the loop then at the end of the lines. */
  lemma {:induction false} TabularReads(P: seq<string>, f: seq<Entry>, acc: seq<Entry>, o: Options, depth: nat)
    requires o.indentation > 0 && |f| == 1 && IsKey(f[0].key)
    requires f[0].val.Arr? && TableOk(f[0].val.items, o.delimiter.Char())
    requires Put(acc, f[0].key, f[0].val) == acc + [f[0]]
    ensures Reads(P + ObjectLines(f, o, depth), |P|, acc, f, o.indentation * depth)
  {
    var e := f[0];
    var xs := e.val.items;
    var keys := Keys(xs[0].fields);
    var pad := Pad(o, depth);
    var hdr := pad + e.key + Header(keys, |xs|, o);
    var lines := P + ObjectLines(f, o, depth);
    TabularShape(P, f, o, depth);
    ClassifyTabular(pad, e.key, keys, |xs|, o);
    LineIndent(pad, e.key, Header(keys, |xs|, o));
    HeaderFields(keys);
    TableBlock(P + [hdr], xs, keys, o, depth);
    StepTabular(lines, |P|, acc, e.key, HeaderMatch(Join(keys, ","), o.delimiter, |Header(keys, |xs|, o)|));
    assert Entry(e.key, Arr(xs)) == e;
  }

  /** The lines of a lone tabular entry after `P`: its header line, then
      its rows. */
  lemma {:induction false} TabularShape(P: seq<string>, f: seq<Entry>, o: Options, depth: nat)
    requires |f| == 1 && f[0].val.Arr? && |f[0].val.items| > 0 && AllObjects(f[0].val.items)
    ensures var xs := f[0].val.items;
      var keys := Keys(xs[0].fields);
      var hdr := Pad(o, depth) + f[0].key + Header(keys, |xs|, o);
      var lines := P + ObjectLines(f, o, depth);
      |P| < |lines| && lines[|P|] == hdr && lines == (P + [hdr]) + Rows(xs, keys, o, depth)
  {
    var xs := f[0].val.items;
    var keys := Keys(xs[0].fields);
    var hdr := Pad(o, depth) + f[0].key + Header(keys, |xs|, o);
    TabularLines(f[0], o, depth);
    assert ObjectLines(f, o, depth) == [hdr] + Rows(xs, keys, o, depth);
  }

  /** The rows of a good table, after the header, are read as its elements,
      to the end of the lines. */
  lemma {:induction false} TableBlock(P: seq<string>, xs: seq<Value>, keys: seq<string>, o: Options, depth: nat)
    requires o.indentation > 0 && |keys| > 0 && RowsOk(xs, keys, o.delimiter.Char())
    ensures var lines := P + Rows(xs, keys, o, depth);
      ParseRows(lines, |P|, o.indentation * depth, keys, o.delimiter) == (xs, |lines|)
  {
    var rows := Rows(xs, keys, o, depth);
    var lines := P + rows;
    RowsIndent(xs, keys, o, depth);
    assert o.indentation * (depth + 1) == o.indentation * depth + o.indentation;
    Deeper(P, rows, o.indentation * depth);
    ParseRowsToEnd(lines, |P|, o.indentation * depth, keys, o.delimiter);
    assert lines[|P|..] == rows;
    TableRows(xs, keys, o, depth);
  }

  lemma {:induction false} Deeper(P: seq<string>, rows: seq<string>, h: nat)
    requires forall j :: 0 <= j < |rows| ==> Indent(rows[j]) > h
    ensures forall m :: |P| <= m < |P + rows| ==> Indent((P + rows)[m]) > h
  {
    forall m | |P| <= m < |P + rows|
      ensures Indent((P + rows)[m]) > h
    {
      assert (P + rows)[m] == rows[m - |P|];
    }
  }

  // ---------------------------------------------------------------------
  // Whole texts: `toonToJson(jsonToToon(data))` gives `data` back.

  /** A good scalar's text holds no newline. */
  lemma {:induction false} ScalarSingle(v: Value)
    requires ScalarOk(v)
    ensures '\n' !in JsString(v)
  {
    ScalarShape(v);
  }

  /** A header line of word keys holds no newline. */
  lemma {:induction false} HeaderSingle(keys: seq<string>, n: nat, o: Options)
    requires forall i :: 0 <= i < |keys| ==> IsKey(keys[i])
    ensures '\n' !in Header(keys, n, o)
  {
    JoinExcludes(keys, ",", '\n');
  }

  /** No row of a good table holds a newline. */
  lemma {:induction false} RowsSingle(xs: seq<Value>, keys: seq<string>, o: Options, depth: nat)
    requires RowsOk(xs, keys, o.delimiter.Char())
    ensures forall i :: 0 <= i < |xs| ==> '\n' !in Rows(xs, keys, o, depth)[i]
  {
    forall i | 0 <= i < |xs|
      ensures '\n' !in Rows(xs, keys, o, depth)[i]
    {
      var f := xs[i].fields;
      var cells := RowCells(f, keys);
      forall j | 0 <= j < |cells|
        ensures '\n' !in cells[j]
      {
        LookupUnique(f, keys[j]);
        assert f[j].key == keys[j];
        ScalarSingle(f[j].val);
      }
      JoinExcludes(cells, [o.delimiter.Char()], '\n');
    }
  }

  /** No line of a good object holds a newline. */
  lemma {:induction false} ObjectLinesSingle(f: seq<Entry>, o: Options, depth: nat)
    requires EntriesOk(f, o.delimiter.Char())
    ensures forall i :: 0 <= i < |ObjectLines(f, o, depth)| ==> '\n' !in ObjectLines(f, o, depth)[i]
    decreases f, 1
  {
    if |f| > 0 {
      EntriesOkTail(f, o.delimiter.Char());
      EntryLinesSingle(f[0], o, depth);
      ObjectLinesSingle(f[1..], o, depth);
    }
  }

  lemma {:induction false} EntryLinesSingle(e: Entry, o: Options, depth: nat)
    requires IsKey(e.key) && LastOk(e.val, o.delimiter.Char())
    ensures forall i :: 0 <= i < |EntryLines(e, o, depth)| ==> '\n' !in EntryLines(e, o, depth)[i]
    decreases e, 1
  {
    if ScalarOk(e.val) {
      ScalarEntrySingle(e, o, depth);
    } else if e.val.Obj? {
      NestedEntrySingle(e, o, depth);
    } else {
      TabularEntrySingle(e, o, depth);
    }
  }

  lemma {:induction false} ScalarEntrySingle(e: Entry, o: Options, depth: nat)
    requires IsKey(e.key) && ScalarOk(e.val)
    ensures forall i :: 0 <= i < |EntryLines(e, o, depth)| ==> '\n' !in EntryLines(e, o, depth)[i]
  {
    ScalarLines(e, o, depth);
    ScalarSingle(e.val);
    assert '\n' !in ": " + JsString(e.val);
    KeyLineSingle(o, depth, e.key, ": " + JsString(e.val));
  }

  lemma {:induction false} NestedEntrySingle(e: Entry, o: Options, depth: nat)
    requires IsKey(e.key) && e.val.Obj? && EntriesOk(e.val.fields, o.delimiter.Char())
    ensures forall i :: 0 <= i < |EntryLines(e, o, depth)| ==> '\n' !in EntryLines(e, o, depth)[i]
    decreases e, 0
  {
    var g := e.val.fields;
    var head := Pad(o, depth) + e.key + ":";
    var block := BlockLines(g, o, depth + 1);
    KeyLineSingle(o, depth, e.key, ":");
    if |g| > 0 {
      ObjectLinesSingle(g, o, depth + 1);
    } else {
      assert block == [""];
    }
    var lines := EntryLines(e, o, depth);
    assert lines == [head] + block;
    forall i | 0 <= i < |lines|
      ensures '\n' !in lines[i]
    {
      if i > 0 {
        assert lines[i] == block[i - 1];
      }
    }
  }

  lemma {:induction false} TabularEntrySingle(e: Entry, o: Options, depth: nat)
    requires IsKey(e.key) && e.val.Arr? && TableOk(e.val.items, o.delimiter.Char())
    ensures forall i :: 0 <= i < |EntryLines(e, o, depth)| ==> '\n' !in EntryLines(e, o, depth)[i]
  {
    var xs := e.val.items;
    var keys := Keys(xs[0].fields);
    var head := Pad(o, depth) + e.key + Header(keys, |xs|, o);
    var rows := Rows(xs, keys, o, depth);
    TabularLines(e, o, depth);
    HeaderSingle(keys, |xs|, o);
    KeyLineSingle(o, depth, e.key, Header(keys, |xs|, o));
    RowsSingle(xs, keys, o, depth);
    HeadRowsSingle(head, rows);
  }

  lemma {:induction false} HeadRowsSingle(head: string, rows: seq<string>)
    requires '\n' !in head
    requires forall i :: 0 <= i < |rows| ==> '\n' !in rows[i]
    ensures forall i :: 0 <= i < |[head] + rows| ==> '\n' !in ([head] + rows)[i]
  {
    var lines := [head] + rows;
    forall i | 0 <= i < |lines|
      ensures '\n' !in lines[i]
    {
      if i > 0 {
        assert lines[i] == rows[i - 1];
      }
    }
  }

  /** A line of padding, a word key and a rest without newline holds none. */
  lemma {:induction false} KeyLineSingle(o: Options, depth: nat, key: string, rest: string)
    requires IsKey(key) && '\n' !in rest
    ensures '\n' !in Pad(o, depth) + key + rest
  {
    var pad := Pad(o, depth);
    var line := pad + key + rest;
    forall i | 0 <= i < |line|
      ensures line[i] != '\n'
    {
      if i < |pad| {
        assert line[i] == ' ';
      } else if i < |pad| + |key| {
        assert line[i] == key[i - |pad|];
        assert IsWordChar(key[i - |pad|]);
      } else {
        assert line[i] == rest[i - |pad| - |key|];
      }
    }
  }

  /** The first line of a good object at the top level starts with its
      first key, so it is neither blank nor a root header. */
  lemma {:induction false} FirstLine(f: seq<Entry>, o: Options)
    requires |f| > 0 && IsKey(f[0].key)
    ensures var lines := ObjectLines(f, o, 0);
      |lines| > 0 && |lines[0]| > 0 && lines[0][0] == f[0].key[0]
      && !IsBlank(lines[0]) && MatchHeader(lines[0]).None?
  {
    var e := f[0];
    assert Pad(o, 0) == "";
    var first := EntryLines(e, o, 0)[0];
    assert first[..|e.key|] == e.key by {
      match e.val
      case Obj(g) =>
      case Arr(xs) =>
      case _ =>
    }
    assert ObjectLines(f, o, 0)[0] == first;
    assert first[0] == e.key[0];
  }

  /** An object of good entries, written with a positive indentation,
      reads back as itself. */
  lemma {:induction false} RoundTripObject(f: seq<Entry>, o: Options)
    requires o.indentation > 0 && EntriesOk(f, o.delimiter.Char())
    ensures ToonToJson(JsonToToon(Obj(f), o)) == Success(Obj(f))
  {
    var lines := ObjectLines(f, o, 0);
    ConvertObjectLines(f, o, 0);
    assert JsonToToon(Obj(f), o) == Join(lines, "\n");
    if |f| == 0 {
      assert Split("", '\n') == [""];
      assert ParseBlock([""], 0, 0, []) == ([], 1);
    } else {
      ObjectLinesSingle(f, o, 0);
      assert "\n" == ['\n'];
      SplitJoin(lines, '\n');
      FirstLine(f, o);
      ObjectText(f, o);
    }
  }

  /** The lines of a non-empty good object are read as the object, to the
      end. */
  lemma {:induction false} ObjectText(f: seq<Entry>, o: Options)
    requires o.indentation > 0 && |f| > 0 && EntriesOk(f, o.delimiter.Char())
    ensures ParseToonLines(ObjectLines(f, o, 0), 0) == (Obj(f), |ObjectLines(f, o, 0)|)
  {
    var lines := ObjectLines(f, o, 0);
    ReadsFromStart(f, o);
    ParseReads(lines, 0, 0, [], f, 0);
    assert [] + f == f;
  }

  /** The lines of a good object hold its entries from the first line on,
      at indentation 0. */
  lemma {:induction false} ReadsFromStart(f: seq<Entry>, o: Options)
    requires o.indentation > 0 && EntriesOk(f, o.delimiter.Char())
    ensures Reads(ObjectLines(f, o, 0), 0, [], f, 0)
  {
    NoPrefix(f);
    EncodeReads([], f, [], o, 0);
    DropEmptyPrefix([], ObjectLines(f, o, 0), f, o.indentation * 0);
  }

  lemma {:induction false} NoPrefix(f: seq<Entry>)
    requires UniqueKeys(f)
    ensures UniqueKeys([] + f)
  {
    assert [] + f == f;
  }

  lemma {:induction false} DropEmptyPrefix(P: seq<string>, lines: seq<string>, f: seq<Entry>, ind: nat)
    requires P == [] && ind == 0 && Reads(P + lines, |P|, [], f, ind)
    ensures Reads(lines, 0, [], f, 0)
  {
    assert P + lines == lines;
  }

  /** A good table, written at the root, reads back as itself. */
  lemma {:induction false} RoundTripRoot(xs: seq<Value>, o: Options)
    requires TableOk(xs, o.delimiter.Char())
    ensures ToonToJson(JsonToToon(Arr(xs), o)) == Success(Arr(xs))
  {
    RootLines(xs, o);
    RootParse(xs, o);
  }

  /** The header line and rows of a root table are parsed back into it. */
  lemma {:induction false} RootParse(xs: seq<Value>, o: Options)
    requires TableOk(xs, o.delimiter.Char())
    ensures var keys := Keys(xs[0].fields);
      var hdr := Header(keys, |xs|, o);
      && !IsBlank(hdr) && MatchHeader(hdr).Some?
      && ParseRootArray([hdr] + Rows(xs, keys, o, 0)) == Success(Arr(xs))
  {
    var keys := Keys(xs[0].fields);
    var lines := [Header(keys, |xs|, o)] + Rows(xs, keys, o, 0);
    RootHeader(keys, |xs|, o);
    assert lines[1..] == Rows(xs, keys, o, 0);
    TableRows(xs, keys, o, 0);
  }

  /** The text of a root table splits into its header line and its rows. */
  lemma {:induction false} RootLines(xs: seq<Value>, o: Options)
    requires TableOk(xs, o.delimiter.Char())
    ensures var keys := Keys(xs[0].fields);
      var lines := Split(JsonToToon(Arr(xs), o), '\n');
      |lines| > 0 && lines[0] == Header(keys, |xs|, o) && lines[1..] == Rows(xs, keys, o, 0)
  {
    var keys := Keys(xs[0].fields);
    var hdr := Header(keys, |xs|, o);
    var rows := Rows(xs, keys, o, 0);
    var lines := [hdr] + rows;
    JoinAppend([hdr], rows, "\n");
    HeaderSingle(keys, |xs|, o);
    RowsSingle(xs, keys, o, 0);
    assert "\n" == ['\n'];
    SplitJoin(lines, '\n');
    assert lines[1..] == rows;
  }

  /** The root header of word keys is a non-blank line whose trimmed match
      gives the keys back. */
  lemma {:induction false} RootHeader(keys: seq<string>, n: nat, o: Options)
    requires |keys| > 0 && forall i :: 0 <= i < |keys| ==> IsKey(keys[i])
    ensures var hdr := Header(keys, n, o);
      && !IsBlank(hdr) && MatchHeader(hdr).Some?
      && MatchHeader(Trim(hdr)) == Some(HeaderMatch(Join(keys, ","), o.delimiter, |hdr|))
      && TrimAll(Split(Join(keys, ","), ',')) == keys
  {
    var hdr := Header(keys, n, o);
    HeaderMatches(keys, n, o);
    TrimKeepsHeader(hdr);
    assert !IsBlank(hdr) by {
      IndentIs(hdr, 0);
    }
    HeaderFields(keys);
    KeysTrimmed(keys);
  }

  /** Word keys are their own trim. */
  lemma {:induction false} KeysTrimmed(keys: seq<string>)
    requires forall i :: 0 <= i < |keys| ==> IsKey(keys[i])
    ensures TrimAll(keys) == keys
  {
    forall i | 0 <= i < |keys|
      ensures Trim(keys[i]) == keys[i]
    {
      var k := keys[i];
      assert !IsSpace(k[0]) && !IsSpace(k[|k| - 1]);
      TrimUnchanged(k);
    }
  }
}
