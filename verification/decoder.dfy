/** The TOON decoder: `toonToJson`, `parseRootArray` and `parseToonLines`.
    Each regular expression of the decoder is a recogniser over one line. */
module Decoder {
  import opened Wrappers
  import opened Text
  import opened Numbers
  import opened Values
  import opened Scalars
  import opened Encoder

  /** Length of the run of `\d` characters at the start of `s`. */
  function DigitRun(s: string): (n: nat)
    ensures n <= |s| && AllDigits(s[..n])
    ensures n < |s| ==> !IsDigit(s[n])
  {
    if |s| == 0 || !IsDigit(s[0]) then 0
    else
      var n := 1 + DigitRun(s[1..]);
      assert s[..n] == [s[0]] + s[1..][..n - 1];
      n
  }

  /** A match of the header pattern: the text between the braces, the
      delimiter it announces, and the number of characters matched. */
  datatype HeaderMatch = HeaderMatch(fields: string, delimiter: Delimiter, len: nat)

  predicate IsDelimiterChar(c: char) {
    c == '|' || c == ',' || c == '\t'
  }

  /** `match[3] === '|' ? '|' : match[3] === '\t' ? '\t' : ','` */
  function DelimiterOf(c: char): Delimiter {
    if c == '|' then Pipe else if c == '\t' then Tab else Comma
  }

  /** `\{([^}]+)\}([|,\t])?:` at the start of `s`. */
  function MatchBraces(s: string): (r: Option<HeaderMatch>)
    ensures r.Some? ==> 4 <= r.value.len <= |s| && s[r.value.len - 1] == ':'
    ensures r.Some? ==> |r.value.fields| > 0 && '}' !in r.value.fields
  {
    if |s| >= 2 && s[0] == '{' then
      var k := IndexOf(s[1..], '}');
      if 0 < k < |s| - 1 then
        var e := k + 2;
        if e < |s| && s[e] == ':' then Some(HeaderMatch(s[1..k + 1], Comma, e + 1))
        else if e + 1 < |s| && s[e + 1] == ':' && IsDelimiterChar(s[e]) then
          Some(HeaderMatch(s[1..k + 1], DelimiterOf(s[e]), e + 2))
        else None
      else None
    else None
  }

  /** `(?:\[(\d+)\])?\{([^}]+)\}([|,\t])?:` at the start of `s`: the count in
      brackets is matched but not kept. */
  function MatchHeader(s: string): (r: Option<HeaderMatch>)
    ensures r.Some? ==> 4 <= r.value.len <= |s| && s[r.value.len - 1] == ':'
    ensures r.Some? ==> |r.value.fields| > 0 && '}' !in r.value.fields
    ensures r.Some? ==> s[0] == '[' || s[0] == '{'
  {
    if |s| > 0 && s[0] == '[' then
      var n := DigitRun(s[1..]);
      if n > 0 && n + 1 < |s| && s[n + 1] == ']' then
        match MatchBraces(s[n + 2..])
        case None => None
        case Some(h) => Some(h.(len := h.len + n + 2))
      else None
    else MatchBraces(s)
  }

  /** The line forms of `parseToonLines`, tried in its order. */
  datatype LineForm =
    | TabularLine(key: string, header: HeaderMatch)
    | NestedLine(key: string)
    | KeyValueLine(key: string, value: string)
    | OtherLine

  /** `^(\s*)(\w+)(?:\[(\d+)\])?\{([^}]+)\}([|,\t])?:`, then `^(\s*)(\w+):$`,
      then `^(\s*)(\w+):\s*(.+)$`. In the last, `\s*` gives back one
      character when the rest is all whitespace, and `.` matches no line
      terminator. */
  function Classify(line: string): (r: LineForm)
    ensures !r.OtherLine? ==> |r.key| > 0 && AllWordChars(r.key)
    ensures r.KeyValueLine? ==> |r.value| > 0 && forall i :: 0 <= i < |r.value| ==> !IsLineTerminator(r.value[i])
  {
    var rest := line[Indent(line)..];
    var k := WordRun(rest);
    var key := rest[..k];
    var after := rest[k..];
    if k == 0 then OtherLine
    else if MatchHeader(after).Some? then TabularLine(key, MatchHeader(after).value)
    else if after == ":" then NestedLine(key)
    else if |after| >= 2 && after[0] == ':' then
      var tail := after[1..];
      var j := if Indent(tail) < |tail| then Indent(tail) else |tail| - 1;
      var value := tail[j..];
      if forall i :: 0 <= i < |value| ==> !IsLineTerminator(value[i]) then KeyValueLine(key, value)
      else OtherLine
    else OtherLine
  }

  /** The objects of the non-blank lines of a tabular block: each line is
      trimmed, split on the delimiter, and paired with the field names. */
  function BlockRows(ls: seq<string>, fields: seq<string>, d: Delimiter): (r: seq<Value>)
    ensures |r| <= |ls|
    ensures AllObjects(r)
  {
    if |ls| == 0 then []
    else
      var rest := BlockRows(ls[1..], fields, d);
      if IsBlank(ls[0]) then rest
      else
        ObjectsCons(RowValue(ls[0], fields, d), rest);
        [RowValue(ls[0], fields, d)] + rest
  }

  /** The non-blank lines of `ls`, in order. */
  function NonBlankLines(ls: seq<string>): (r: seq<string>)
    ensures |r| <= |ls|
    ensures forall x :: x in r <==> x in ls && !IsBlank(x)
  {
    if |ls| == 0 then []
    else
      var rest := NonBlankLines(ls[1..]);
      assert forall x :: x in ls <==> x == ls[0] || x in ls[1..] by {
        assert ls == [ls[0]] + ls[1..];
      }
      if IsBlank(ls[0]) then rest else [ls[0]] + rest
  }

  /** A tabular block has exactly one object per non-blank line: the k-th
      object is the row read from the k-th non-blank line. */
  lemma {:induction false} BlockRowsRead(ls: seq<string>, fields: seq<string>, d: Delimiter)
    ensures |BlockRows(ls, fields, d)| == |NonBlankLines(ls)|
    ensures forall k :: 0 <= k < |NonBlankLines(ls)| ==>
      BlockRows(ls, fields, d)[k] == RowValue(NonBlankLines(ls)[k], fields, d)
    decreases |ls|
  {
    if |ls| > 0 {
      BlockRowsRead(ls[1..], fields, d);
      if !IsBlank(ls[0]) {
        RowsCons(RowValue(ls[0], fields, d), ls[0], BlockRows(ls[1..], fields, d), NonBlankLines(ls[1..]), fields, d);
      }
    }
  }

  /** One more row in front of rows read line by line. */
  lemma {:induction false} RowsCons(v: Value, line: string, rest: seq<Value>, nb: seq<string>, fields: seq<string>, d: Delimiter)
    requires v == RowValue(line, fields, d)
    requires |rest| == |nb| && forall k :: 0 <= k < |nb| ==> rest[k] == RowValue(nb[k], fields, d)
    ensures |[v] + rest| == |[line] + nb|
    ensures forall k :: 0 <= k < |[line] + nb| ==> ([v] + rest)[k] == RowValue(([line] + nb)[k], fields, d)
  {
    ConsShift(v, rest);
    ConsShift(line, nb);
  }

  /** Behind a new head, element k is the old element k - 1. */
  lemma {:induction false} ConsShift<T>(a: T, xs: seq<T>)
    ensures ([a] + xs)[0] == a
    ensures forall k :: 0 < k <= |xs| ==> ([a] + xs)[k] == xs[k - 1]
  {
  }

  /** `trimmedData.split(delimiter)`, each field set to its parsed cell. */
  function RowValue(line: string, fields: seq<string>, d: Delimiter): (r: Value)
    ensures r.Obj?
  {
    Obj(RowObject(fields, Cells(Split(Trim(line), d.Char()), |fields|)))
  }

  /** The data-row loop of a keyed tabular block starting at line `i`: it
      ends at the first line, blank or not, indented no deeper than the
      header, and turns every non-blank line before it into an object. */
  function ParseRows(lines: seq<string>, i: nat, headerIndent: nat, fields: seq<string>, d: Delimiter): (r: (seq<Value>, nat))
    requires i <= |lines|
    ensures i <= r.1 <= |lines|
    ensures r.1 == |lines| || Indent(lines[r.1]) <= headerIndent
    ensures forall m :: i <= m < r.1 ==> Indent(lines[m]) > headerIndent
    ensures r.0 == BlockRows(lines[i..r.1], fields, d)
    decreases |lines| - i
  {
    if i == |lines| || Indent(lines[i]) <= headerIndent then ([], i)
    else
      var rest := ParseRows(lines, i + 1, headerIndent, fields, d);
      assert lines[i..rest.1][0] == lines[i] && lines[i..rest.1][1..] == lines[i + 1..rest.1];
      (if IsBlank(lines[i]) then rest.0 else [RowValue(lines[i], fields, d)] + rest.0, rest.1)
  }

  /** Where the loop of `parseToonLines(lines, start)` may stop: at the end
      of the input, or at a non-blank line after `start` indented less than
      the line just before it. */
  predicate StopsAt(lines: seq<string>, start: nat, e: nat)
    requires e <= |lines|
  {
    e == |lines| || (e > start && !IsBlank(lines[e]) && Indent(lines[e]) < Indent(lines[e - 1]))
  }

  /** The loop of `parseToonLines(lines, start)` from line `i` with the
      entries `acc` gathered so far. It returns the object and the index it
      stopped at: the end of the input, or a non-blank line after `start`
      indented less than the line just before it. */
  function ParseBlock(lines: seq<string>, start: nat, i: nat, acc: seq<Entry>): (r: (seq<Entry>, nat))
    requires start <= i <= |lines|
    ensures i <= r.1 <= |lines|
    ensures i == start && start < |lines| ==> r.1 > start
    ensures StopsAt(lines, start, r.1)
    decreases |lines| - i, 1
  {
    if i == |lines| then (acc, i)
    else if IsBlank(lines[i]) then ParseBlock(lines, start, i + 1, acc)
    else if i > start && Indent(lines[i]) < Indent(lines[i - 1]) then (acc, i)
    else
      var next := Step(lines, i, acc);
      ParseBlock(lines, start, next.1, next.0)
  }

  /** One turn of the loop on a line that neither is blank nor closes the
      block: a tabular header takes its rows, a nested key takes the block
      that `parseToonLines(lines, i + 1)` reads, a key-value pair takes its
      parsed value, and any other line is skipped. */
  function Step(lines: seq<string>, i: nat, acc: seq<Entry>): (r: (seq<Entry>, nat))
    requires i < |lines|
    ensures i < r.1 <= |lines|
    decreases |lines| - i, 0
  {
    var line := lines[i];
    match Classify(line)
    case TabularLine(key, h) =>
      var rows := ParseRows(lines, i + 1, Indent(line), Split(h.fields, ','), h.delimiter);
      (Put(acc, key, Arr(rows.0)), rows.1)
    case NestedLine(key) =>
      var nested := ParseBlock(lines, i + 1, i + 1, []);
      (Put(acc, key, Obj(nested.0)), nested.1)
    case KeyValueLine(key, value) =>
      (Put(acc, key, ParseValue(value)), i + 1)
    case OtherLine =>
      (acc, i + 1)
  }

  /** `parseToonLines(lines, startIndex)` */
  function ParseToonLines(lines: seq<string>, start: nat): (r: (Value, nat))
    requires start <= |lines|
    ensures r.0.Obj?
    ensures start <= r.1 <= |lines|
    ensures start < |lines| ==> r.1 > start
  {
    var b := ParseBlock(lines, start, start, []);
    (Obj(b.0), b.1)
  }

  /** Index of the first non-blank line: `lines.find(line => line.trim())`. */
  function FirstNonBlank(lines: seq<string>): (r: Option<nat>)
    ensures r.Some? ==> r.value < |lines| && !IsBlank(lines[r.value])
    ensures r.Some? ==> forall m :: 0 <= m < r.value ==> IsBlank(lines[m])
    ensures r.None? ==> forall m :: 0 <= m < |lines| ==> IsBlank(lines[m])
  {
    if |lines| == 0 then None
    else if !IsBlank(lines[0]) then Some(0)
    else
      match FirstNonBlank(lines[1..])
      case None => None
      case Some(j) => Some(j + 1)
  }

  /** `parseRootArray(lines)`: the header is read from the trimmed first
      line, whatever line the caller found it on; every later non-blank line
      is a row, and the field names are trimmed. */
  function ParseRootArray(lines: seq<string>): (r: Result<Value, Error>)
    requires |lines| > 0
    ensures r.Failure? <==> MatchHeader(Trim(lines[0])).None?
    ensures r.Failure? ==> r.error == InvalidToon("Invalid root array format")
    ensures r.Success? ==> r.value.Arr? && |r.value.items| <= |lines| - 1 && AllObjects(r.value.items)
    ensures r.Success? ==>
      var h := MatchHeader(Trim(lines[0])).value;
      var rows := NonBlankLines(lines[1..]);
      && |r.value.items| == |rows|
      && forall k :: 0 <= k < |rows| ==>
        r.value.items[k] == RowValue(rows[k], TrimAll(Split(h.fields, ',')), h.delimiter)
  {
    match MatchHeader(Trim(lines[0]))
    case None => Failure(InvalidToon("Invalid root array format"))
    case Some(h) =>
      BlockRowsRead(lines[1..], TrimAll(Split(h.fields, ',')), h.delimiter);
      Success(Arr(BlockRows(lines[1..], TrimAll(Split(h.fields, ',')), h.delimiter)))
  }

  /** `.map(f => f.trim())` */
  function TrimAll(ss: seq<string>): (r: seq<string>)
    ensures |r| == |ss|
    ensures forall i :: 0 <= i < |ss| ==> r[i] == Trim(ss[i])
  {
    seq(|ss|, i requires 0 <= i < |ss| => Trim(ss[i]))
  }

  /** `toonToJson(text)`: a root array when the first non-blank line opens
      with a keyless header, otherwise the object `parseToonLines` builds.
      Its only failure is a root header that `parseRootArray` cannot find on
      the first physical line. */
  function ToonToJson(text: string): Result<Value, Error>
  {
    var lines := Split(text, '\n');
    match FirstNonBlank(lines)
    case Some(j) =>
      if MatchHeader(lines[j]).Some? then ParseRootArray(lines)
      else Success(ParseToonLines(lines, 0).0)
    case None => Success(ParseToonLines(lines, 0).0)
  }

  // ---------------------------------------------------------------------
  // What the recognisers accept.

  lemma {:induction false} DigitRunIs(s: string, n: nat)
    requires n <= |s| && AllDigits(s[..n]) && (n < |s| ==> !IsDigit(s[n]))
    ensures DigitRun(s) == n
    decreases n
  {
    if n > 0 {
      assert IsDigit(s[..n][0]);
      assert s[1..][..n - 1] == s[..n][1..];
      DigitRunIs(s[1..], n - 1);
    }
  }

  /** `u` and `s` agree on their first `n` characters. */
  predicate Agree(s: string, u: string, n: nat) {
    n <= |s| && n <= |u| && forall x :: 0 <= x < n ==> u[x] == s[x]
  }

  /** The brace pattern looks at the matched characters only. */
  lemma {:induction false} MatchBracesAgree(s: string, u: string)
    requires MatchBraces(s).Some? && Agree(s, u, MatchBraces(s).value.len)
    ensures MatchBraces(u) == MatchBraces(s)
  {
    var n := MatchBraces(s).value.len;
    var k := IndexOf(s[1..], '}');
    assert k + 3 <= n;
    assert u[1..][..k] == s[1..][..k];
    IndexOfIs(u[1..], '}', k);
    assert u[1..k + 1] == s[1..k + 1];
  }

  /** The header pattern looks at the matched characters only. */
  lemma {:induction false} MatchHeaderAgree(s: string, u: string)
    requires MatchHeader(s).Some? && Agree(s, u, MatchHeader(s).value.len)
    ensures MatchHeader(u) == MatchHeader(s)
  {
    if s[0] == '[' {
      BracketAgree(s, u);
    } else {
      MatchBracesAgree(s, u);
    }
  }

  /** A header with a length marker: the same digits, the same `]`, and
      the same braces after them. */
  lemma {:induction false} BracketAgree(s: string, u: string)
    requires MatchHeader(s).Some? && s[0] == '[' && Agree(s, u, MatchHeader(s).value.len)
    ensures MatchHeader(u) == MatchHeader(s)
  {
    var m := DigitRun(s[1..]);
    BracketFacts(s);
    var h := MatchBraces(s[m + 2..]).value;
    DigitsAgree(s, u, m);
    TailAgree(s, u, m + 2, h.len);
    MatchBracesAgree(s[m + 2..], u[m + 2..]);
    SameMarker(s, u, m);
  }

  /** The same marker before the same brace match gives the same header. */
  lemma {:induction false} SameMarker(s: string, u: string, m: nat)
    requires 0 < m && m + 1 < |s| && s[0] == '[' && DigitRun(s[1..]) == m && s[m + 1] == ']'
    requires m + 1 < |u| && u[0] == '[' && DigitRun(u[1..]) == m && u[m + 1] == ']'
    requires MatchBraces(s[m + 2..]).Some? && MatchBraces(u[m + 2..]) == MatchBraces(s[m + 2..])
    ensures MatchHeader(u) == MatchHeader(s)
  {
    BracketHeader(s, m);
    BracketHeader(u, m);
  }

  /** With a length marker of `m` digits, the header is the brace match
      after the `]`, widened by the marker. */
  lemma {:induction false} BracketHeader(s: string, m: nat)
    requires 0 < m && m + 1 < |s| && s[0] == '[' && DigitRun(s[1..]) == m && s[m + 1] == ']'
    ensures MatchBraces(s[m + 2..]).Some? ==>
      MatchHeader(s) == Some(MatchBraces(s[m + 2..]).value.(len := MatchBraces(s[m + 2..]).value.len + m + 2))
  {
  }

  /** What a match with a length marker consists of. */
  lemma {:induction false} BracketFacts(s: string)
    requires MatchHeader(s).Some? && s[0] == '['
    ensures var m := DigitRun(s[1..]);
      && 0 < m && m + 1 < |s| && s[m + 1] == ']' && MatchBraces(s[m + 2..]).Some?
      && MatchHeader(s).value.len == m + 2 + MatchBraces(s[m + 2..]).value.len
  {
  }

  lemma {:induction false} DigitsAgree(s: string, u: string, m: nat)
    requires 0 < |s| && m + 2 <= |s| && m == DigitRun(s[1..]) && Agree(s, u, m + 2)
    ensures DigitRun(u[1..]) == m && u[0] == s[0] && m + 1 < |u| && u[m + 1] == s[m + 1]
  {
    assert u[1..][..m] == s[1..][..m];
    DigitRunIs(u[1..], m);
  }

  lemma {:induction false} TailAgree(s: string, u: string, k: nat, n: nat)
    requires Agree(s, u, k + n)
    ensures Agree(s[k..], u[k..], n)
  {
  }

  /** A line that opens with a header matches the same header once trimmed,
      since the header neither starts nor ends with whitespace. */
  lemma {:induction false} TrimKeepsHeader(line: string)
    requires MatchHeader(line).Some?
    ensures MatchHeader(Trim(line)) == MatchHeader(line)
  {
    var n := MatchHeader(line).value.len;
    IndentIs(line, 0);
    assert TrimStart(line) == line;
    assert !IsSpace(line[n - 1]);
    MatchHeaderAgree(line, Trim(line));
  }

  lemma {:induction false} BlankHasNoHeader(line: string)
    requires IsBlank(line)
    ensures MatchHeader(Trim(line)).None?
  {
  }

  /** `toonToJson` gives a root array exactly when the first non-blank line
      opens with a header and is the first line; it fails exactly when such a
      header sits below leading blank lines, since `parseRootArray` looks
      for it on the first line; every other text is read as an object. */
  lemma {:induction false} ToonShape(text: string)
    ensures var lines := Split(text, '\n');
      var j := FirstNonBlank(lines);
      var r := ToonToJson(text);
      && (r.Failure? <==> j.Some? && j.value > 0 && MatchHeader(lines[j.value]).Some?)
      && (r.Failure? ==> r.error == InvalidToon("Invalid root array format"))
      && (r.Success? && r.value.Arr? <==> j == Some(0) && MatchHeader(lines[0]).Some?)
      && (r.Success? ==> r.value.Arr? || r.value.Obj?)
  {
    var lines := Split(text, '\n');
    match FirstNonBlank(lines)
    case Some(j) =>
      if MatchHeader(lines[j]).Some? {
        if j == 0 {
          TrimKeepsHeader(lines[0]);
        } else {
          BlankHasNoHeader(lines[0]);
        }
      }
    case None =>
  }

  /** The count in brackets is matched and thrown away: the fields and the
      delimiter are those of the braces that follow it. */
  lemma {:induction false} LengthMarkerIgnored(digits: string, rest: string)
    requires |digits| > 0 && AllDigits(digits)
    ensures MatchBraces(rest).None? ==> MatchHeader("[" + digits + "]" + rest).None?
    ensures MatchBraces(rest).Some? ==>
      MatchHeader("[" + digits + "]" + rest) == Some(MatchBraces(rest).value.(len := MatchBraces(rest).value.len + |digits| + 2))
  {
    var s := "[" + digits + "]" + rest;
    assert s[1..][..|digits|] == digits;
    DigitRunIs(s[1..], |digits|);
    assert s[|digits| + 2..] == rest;
  }

  /** The marker an empty array is written as is not a header the decoder
      reads: braces with nothing inside do not match. */
  lemma {:induction false} EmptyMarkerUnreadable(o: Options)
    ensures MatchHeader(EmptyMarker(o)).None?
  {
    var s := EmptyMarker(o);
    if o.showLengthMarkers {
      assert s[1..][..1] == "0";
      DigitRunIs(s[1..], 1);
      assert s[3..] == "{}:";
      IndexOfIs("{}:"[1..], '}', 0);
    } else {
      IndexOfIs(s[1..], '}', 0);
    }
  }

  /** A data row is an object with exactly the header's fields, once each:
      a field's value is the trimmed, parsed cell under its last occurrence
      in the header, and a cell the row lacks is `undefined`. */
  lemma {:induction false} RowFields(line: string, fields: seq<string>, d: Delimiter, j: nat)
    requires j < |fields|
    requires forall m :: j < m < |fields| ==> fields[m] != fields[j]
    ensures var f := RowValue(line, fields, d).fields;
      var cells := Split(Trim(line), d.Char());
      && UniqueKeys(f)
      && (forall x :: x in Keys(f) <==> x in fields)
      && (j < |cells| ==> Lookup(f, fields[j]) == Some(ParseValue(Trim(cells[j]))))
      && (j >= |cells| ==> Lookup(f, fields[j]) == Some(Undef))
  {
    var cells := Cells(Split(Trim(line), d.Char()), |fields|);
    RowObjectKeys(fields, cells);
    RowObjectLookup(fields, cells, j);
  }
}
