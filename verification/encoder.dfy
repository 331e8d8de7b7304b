/** The TOON encoder: `jsonToToon` and its helpers `convertValue`,
    `convertObject` and `convertArrayOfObjects`. */
module Encoder {
  import opened Wrappers
  import opened Text
  import opened Numbers
  import opened Values

  /** The cell separator of tabular rows. */
  datatype Delimiter = Comma | Pipe | Tab {
    function Char(): char {
      match this
      case Comma => ','
      case Pipe => '|'
      case Tab => '\t'
    }

    /** What the header writes after `}`: nothing for the comma. */
    function Marker(): string {
      match this
      case Comma => ""
      case Pipe => "|"
      case Tab => "\t"
    }
  }

  datatype Options = Options(delimiter: Delimiter, indentation: nat, showLengthMarkers: bool)

  /** The defaults: comma, two spaces per level, length markers on. */
  const Defaults: Options := Options(Comma, 2, true)

  /** The caller's options, each of which may be absent. */
  datatype Overrides = Overrides(delimiter: Option<Delimiter>, indentation: Option<nat>, showLengthMarkers: Option<bool>)

  /** `{ ...DEFAULT_OPTIONS, ...options }`: every option the caller gives wins,
      every other one is the default. */
  function Resolve(u: Option<Overrides>): (o: Options)
    ensures u.None? ==> o == Defaults
    ensures u.Some? && u.value.delimiter.Some? ==> o.delimiter == u.value.delimiter.value
    ensures u.Some? && u.value.delimiter.None? ==> o.delimiter == Comma
    ensures u.Some? && u.value.indentation.Some? ==> o.indentation == u.value.indentation.value
    ensures u.Some? && u.value.indentation.None? ==> o.indentation == 2
    ensures u.Some? && u.value.showLengthMarkers.Some? ==> o.showLengthMarkers == u.value.showLengthMarkers.value
    ensures u.Some? && u.value.showLengthMarkers.None? ==> o.showLengthMarkers
  {
    match u
    case None => Defaults
    case Some(w) =>
      Options(w.delimiter.GetOr(Defaults.delimiter),
              w.indentation.GetOr(Defaults.indentation),
              w.showLengthMarkers.GetOr(Defaults.showLengthMarkers))
  }

  /** `' '.repeat(options.indentation * depth)` */
  function Pad(o: Options, depth: nat): (r: string)
    ensures |r| == o.indentation * depth && AllSpaces(r)
  {
    Spaces(o.indentation * depth)
  }

  /** What an empty array encodes to. */
  function EmptyMarker(o: Options): string {
    if o.showLengthMarkers then "[0]{}:" else "{}:"
  }

  /** The tabular header `[n]{k1,…,km}d:`. */
  function Header(keys: seq<string>, n: nat, o: Options): string {
    (if o.showLengthMarkers then "[" + NatText(n) + "]" else "") + Braces(keys, o)
  }

  /** The field list of a header, `{k1,…,km}d:`. */
  function Braces(keys: seq<string>, o: Options): string {
    "{" + Join(keys, ",") + "}" + o.delimiter.Marker() + ":"
  }

  /** The text of one tabular cell: `null` for null, `undefined` for a key
      the row lacks, `String(value)` otherwise. */
  function CellText(v: Option<Value>): string {
    match v
    case None => "undefined"
    case Some(x) => JsString(x)
  }

  function RowCells(f: seq<Entry>, keys: seq<string>): (r: seq<string>)
    ensures |r| == |keys|
    ensures forall j :: 0 <= j < |keys| ==> r[j] == CellText(Lookup(f, keys[j]))
  {
    seq(|keys|, j requires 0 <= j < |keys| => CellText(Lookup(f, keys[j])))
  }

  /** One indented row per element, its cells in the order of `keys`. */
  function Rows(xs: seq<Value>, keys: seq<string>, o: Options, depth: nat): (r: seq<string>)
    requires AllObjects(xs)
    ensures |r| == |xs|
    ensures forall i :: 0 <= i < |xs| ==>
      r[i] == Pad(o, depth + 1) + Join(RowCells(xs[i].fields, keys), [o.delimiter.Char()])
  {
    seq(|xs|, i requires 0 <= i < |xs| => Pad(o, depth + 1) + Join(RowCells(xs[i].fields, keys), [o.delimiter.Char()]))
  }

  /** `convertArrayOfObjects`: the header, built from the first element's
      keys only, then one row per element. */
  function ConvertArrayOfObjects(xs: seq<Value>, o: Options, depth: nat): string
    requires AllObjects(xs)
  {
    if |xs| == 0 then EmptyMarker(o)
    else
      var keys := Keys(xs[0].fields);
      Header(keys, |xs|, o) + "\n" + Join(Rows(xs, keys, o, depth), "\n")
  }

  /** `[#n` + elements + `]`: an array that is neither empty nor all objects. */
  function InlineArray(xs: seq<Value>, o: Options): string
    decreases xs, 1
  {
    "[" + (if o.showLengthMarkers then "#" + NatText(|xs|) else "") + Join(InlineElements(xs, o), ",") + "]"
  }

  /** The elements of an inline array, each encoded at depth 0. */
  function InlineElements(xs: seq<Value>, o: Options): (r: seq<string>)
    ensures |r| == |xs|
    decreases xs, 0
  {
    if |xs| == 0 then [] else [ConvertValue(xs[0], o, 0)] + InlineElements(xs[1..], o)
  }

  /** `convertValue` */
  function ConvertValue(v: Value, o: Options, depth: nat): string
    decreases v, 2
  {
    match v
    case Arr(xs) =>
      if |xs| > 0 && AllObjects(xs) then ConvertArrayOfObjects(xs, o, depth)
      else if |xs| == 0 then EmptyMarker(o)
      else InlineArray(xs, o)
    case Obj(f) => ConvertObject(f, o, depth)
    case _ => JsString(v)
  }

  /** `convertObject`: the pushed strings joined with newlines. */
  function ConvertObject(f: seq<Entry>, o: Options, depth: nat): string
    decreases f, 1
  {
    Join(Pushes(f, o, depth), "\n")
  }

  /** The strings `convertObject` pushes, entry by entry. */
  function Pushes(f: seq<Entry>, o: Options, depth: nat): (r: seq<string>)
    ensures |r| == 0 <==> |f| == 0
    decreases f, 0
  {
    if |f| == 0 then [] else EntryPushes(f[0], o, depth) + Pushes(f[1..], o, depth)
  }

  /** The one or two strings pushed for one entry. */
  function EntryPushes(e: Entry, o: Options, depth: nat): (r: seq<string>)
    ensures |r| > 0
    decreases e, 2
  {
    var pad := Pad(o, depth);
    match e.val
    case Arr(xs) =>
      if |xs| == 0 then [pad + e.key + EmptyMarker(o)]
      else if AllObjects(xs) then [pad + e.key + ConvertArrayOfObjects(xs, o, depth)]
      else [pad + e.key + ": " + ConvertValue(e.val, o, 0)]
    case Obj(g) => [pad + e.key + ":", ConvertObject(g, o, depth + 1)]
    case _ => [pad + e.key + ": " + ConvertValue(e.val, o, 0)]
  }

  /** `jsonToToon(data, options)` */
  function JsonToToon(v: Value, o: Options): string
  {
    match v
    case Arr(xs) =>
      if |xs| == 0 then EmptyMarker(o)
      else if AllObjects(xs) then ConvertArrayOfObjects(xs, o, 0)
      else InlineArray(xs, o)
    case _ => ConvertValue(v, o, 0)
  }


  // ---------------------------------------------------------------------
  // The line view: the encoder's output as the list of its physical lines.

  /** The lines of an object at `depth`, nested blocks and tabular rows
      spelled out line by line. */
  function ObjectLines(f: seq<Entry>, o: Options, depth: nat): seq<string>
    decreases f, 0
  {
    if |f| == 0 then [] else EntryLines(f[0], o, depth) + ObjectLines(f[1..], o, depth)
  }

  /** The lines of a nested block: an empty object still leaves one empty
      line behind, because its `convertObject` is the empty string. */
  function BlockLines(g: seq<Entry>, o: Options, depth: nat): (r: seq<string>)
    ensures |r| > 0
    decreases g, 1
  {
    if |g| == 0 then [""] else ObjectLines(g, o, depth)
  }

  predicate IsTabular(v: Value) {
    v.Arr? && |v.items| > 0 && AllObjects(v.items)
  }

  /** The lines of one entry. */
  function EntryLines(e: Entry, o: Options, depth: nat): (r: seq<string>)
    ensures |r| > 0
    decreases e, 2
  {
    var pad := Pad(o, depth);
    match e.val
    case Obj(g) => [pad + e.key + ":"] + BlockLines(g, o, depth + 1)
    case Arr(xs) =>
      if |xs| > 0 && AllObjects(xs) then
        [pad + e.key + Header(Keys(xs[0].fields), |xs|, o)] + Rows(xs, Keys(xs[0].fields), o, depth)
      else EntryPushes(e, o, depth)
    case _ => EntryPushes(e, o, depth)
  }

  /** `convertObject` is the newline-join of the object's lines: every entry
      in key order, a scalar as one `key: text` line, a nested object as
      `key:` followed by its own lines one level deeper, a tabular array as
      its header line followed by its rows. */
  lemma {:induction false} ConvertObjectLines(f: seq<Entry>, o: Options, depth: nat)
    ensures ConvertObject(f, o, depth) == Join(ObjectLines(f, o, depth), "\n")
    ensures |ObjectLines(f, o, depth)| == 0 <==> |f| == 0
    decreases f, 1
  {
    if |f| > 0 {
      EntryLinesJoin(f[0], o, depth);
      ConvertObjectLines(f[1..], o, depth);
      var a := EntryPushes(f[0], o, depth);
      var b := Pushes(f[1..], o, depth);
      var c := EntryLines(f[0], o, depth);
      var d := ObjectLines(f[1..], o, depth);
      if |f| > 1 {
        JoinAppend(a, b, "\n");
        JoinAppend(c, d, "\n");
      } else {
        assert a + b == a;
        assert c + d == c;
      }
    }
  }

  /** The strings pushed for one entry join to its lines. */
  lemma {:induction false} EntryLinesJoin(e: Entry, o: Options, depth: nat)
    ensures Join(EntryPushes(e, o, depth), "\n") == Join(EntryLines(e, o, depth), "\n")
    decreases e, 0
  {
    var pad := Pad(o, depth);
    match e.val
    case Obj(g) =>
      ConvertObjectLines(g, o, depth + 1);
      var head := pad + e.key + ":";
      var block := BlockLines(g, o, depth + 1);
      assert Join(block, "\n") == ConvertObject(g, o, depth + 1);
      JoinAppend([head], block, "\n");
      assert EntryPushes(e, o, depth) == [head, ConvertObject(g, o, depth + 1)];
      assert Join([head, ConvertObject(g, o, depth + 1)], "\n") == head + "\n" + ConvertObject(g, o, depth + 1);
    case Arr(xs) =>
      if |xs| > 0 && AllObjects(xs) {
        TableLinesJoin(e, o, depth);
      }
    case _ =>
  }

  /** The table case of `EntryLinesJoin`: the header and the rows pushed as
      one string join to the header line followed by the row lines. */
  lemma {:induction false} TableLinesJoin(e: Entry, o: Options, depth: nat)
    requires e.val.Arr? && |e.val.items| > 0 && AllObjects(e.val.items)
    ensures Join(EntryPushes(e, o, depth), "\n") == Join(EntryLines(e, o, depth), "\n")
  {
    var xs := e.val.items;
    var keys := Keys(xs[0].fields);
    var head := Pad(o, depth) + e.key + Header(keys, |xs|, o);
    var rows := Rows(xs, keys, o, depth);
    JoinAppend([head], rows, "\n");
    Regroup(Pad(o, depth) + e.key, Header(keys, |xs|, o), "\n" + Join(rows, "\n"));
  }

  /** Scalar elements of an inline array are printed as their text. */
  lemma {:induction false} InlineScalars(xs: seq<Value>, o: Options)
    requires forall i :: 0 <= i < |xs| ==> IsScalar(xs[i])
    ensures forall i :: 0 <= i < |xs| ==> InlineElements(xs, o)[i] == JsString(xs[i])
    decreases |xs|
  {
    if |xs| > 0 {
      InlineScalars(xs[1..], o);
      var els := InlineElements(xs, o);
      forall i | 1 <= i < |xs|
        ensures els[i] == JsString(xs[i])
      {
        assert els[i] == InlineElements(xs[1..], o)[i - 1];
        assert xs[1..][i - 1] == xs[i];
      }
    }
  }

  /** A non-empty array of scalars under a key is one line, `key: [`, the
      length marker `#n` when markers are on, the element texts joined by
      commas, and `]`. */
  lemma {:induction false} InlineLine(e: Entry, o: Options, depth: nat)
    requires e.val.Arr? && |e.val.items| > 0
    requires forall i :: 0 <= i < |e.val.items| ==> IsScalar(e.val.items[i])
    ensures var xs := e.val.items;
      var els := InlineElements(xs, o);
      && |els| == |xs| && (forall i :: 0 <= i < |xs| ==> els[i] == JsString(xs[i]))
      && EntryLines(e, o, depth)
        == [Pad(o, depth) + e.key + ": [" + (if o.showLengthMarkers then "#" + NatText(|xs|) else "") + Join(els, ",") + "]"]
  {
    var xs := e.val.items;
    assert !xs[0].Obj?;
    InlineScalars(xs, o);
    assert ConvertValue(e.val, o, 0) == InlineArray(xs, o);
    assert EntryLines(e, o, depth) == EntryPushes(e, o, depth);
    assert EntryPushes(e, o, depth) == [Pad(o, depth) + e.key + ": " + InlineArray(xs, o)];
    Bracketed(Pad(o, depth) + e.key, if o.showLengthMarkers then "#" + NatText(|xs|) else "", Join(InlineElements(xs, o), ","));
  }

  /** The inline form takes no account of the delimiter: elements are
      always joined with commas. */
  lemma {:induction false} InlineIgnoresDelimiter(e: Entry, o: Options, d: Delimiter, depth: nat)
    requires e.val.Arr? && |e.val.items| > 0
    requires forall i :: 0 <= i < |e.val.items| ==> IsScalar(e.val.items[i])
    ensures EntryLines(e, o, depth) == EntryLines(e, o.(delimiter := d), depth)
  {
    var xs := e.val.items;
    var o' := o.(delimiter := d);
    InlineLine(e, o, depth);
    InlineLine(e, o', depth);
    assert InlineElements(xs, o) == InlineElements(xs, o');
  }


  /** The bracket of an inline array, regrouped; stated apart for the same
      reason as `Text.Regroup`. */
  lemma {:induction false} Bracketed(p: string, m: string, j: string)
    ensures p + ": " + ("[" + m + j + "]") == p + ": [" + m + j + "]"
  {
    assert ": [" == ": " + "[";
  }

}
