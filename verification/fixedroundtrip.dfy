/** The corrected decoder reads back every object the encoder writes from
    word keys and values of three kinds: scalars that survive a `key: text`
    line, nested objects of the same kind (empty ones included) and tables,
    in any order. The source's own decoder does so only when a nested block
    or a table comes last. */
module FixedRoundTrip {
  import opened Wrappers
  import opened Text
  import opened Values
  import opened Scalars
  import opened Encoder
  import opened Decoder
  import opened RoundTrip
  import opened ToonFixed

  /** Entries that the corrected decoder reads back: word keys, once each,
      every value good, wherever it sits. */
  predicate NestedOk(f: seq<Entry>, c: char)
    decreases f, 1
  {
    && UniqueKeys(f)
    && forall i :: 0 <= i < |f| ==> IsKey(f[i].key) && ValueOk(f[i].val, c)
  }

  /** A good value: a scalar that reads back as itself, an object of good
      entries, or a table. */
  predicate ValueOk(v: Value, c: char)
    decreases v, 0
  {
    ScalarOk(v) || (v.Obj? && NestedOk(v.fields, c)) || (v.Arr? && TableOk(v.items, c))
  }

  /** The lines after an entry close it at indentation `bound`: there are
      none, or the first is a non-blank line no deeper than `bound`. */
  predicate Closed(T: seq<string>, bound: int) {
    |T| == 0 || (!IsBlank(T[0]) && Indent(T[0]) <= bound)
  }

  // ---------------------------------------------------------------------
  // One entry.

  /** The lines of a good entry, between any lines `P` before and lines `T`
      that close it, are read by one turn of the corrected loop as the entry,
      which moves the loop past them. */
  lemma {:induction false} EntryRead(P: seq<string>, e: Entry, T: seq<string>, acc: seq<Entry>, o: Options, depth: nat)
    requires o.indentation > 0 && IsKey(e.key) && ValueOk(e.val, o.delimiter.Char())
    requires Put(acc, e.key, e.val) == acc + [e]
    requires Closed(T, o.indentation * depth)
    ensures var lines := P + EntryLines(e, o, depth) + T;
      && |P| < |lines| && !IsBlank(lines[|P|]) && Indent(lines[|P|]) == o.indentation * depth
      && FixedStep(lines, |P|, acc).0 == acc + [e]
      && FixedStep(lines, |P|, acc).1 == |P| + |EntryLines(e, o, depth)|
    decreases e, 1
  {
    if ScalarOk(e.val) {
      ScalarRead(P, e, T, acc, o, depth);
    } else if e.val.Obj? {
      if |e.val.fields| == 0 {
        EmptyRead(P, e, T, acc, o, depth);
      } else {
        NestedRead(P, e, T, acc, o, depth);
      }
    } else {
      TableRead(P, e, T, acc, o, depth);
    }
  }

  /** A scalar entry's one line. */
  lemma {:induction false} ScalarRead(P: seq<string>, e: Entry, T: seq<string>, acc: seq<Entry>, o: Options, depth: nat)
    requires IsKey(e.key) && ScalarOk(e.val)
    requires Put(acc, e.key, e.val) == acc + [e]
    ensures var lines := P + EntryLines(e, o, depth) + T;
      && |P| < |lines| && !IsBlank(lines[|P|]) && Indent(lines[|P|]) == o.indentation * depth
      && FixedStep(lines, |P|, acc).0 == acc + [e]
      && FixedStep(lines, |P|, acc).1 == |P| + |EntryLines(e, o, depth)|
  {
    var line := Pad(o, depth) + e.key + ": " + JsString(e.val);
    ScalarLines(e, o, depth);
    ScalarLine(e, o, depth);
    var lines := P + EntryLines(e, o, depth) + T;
    Around(P, [line], T);
    StepKeyValue(lines, |P|, acc, e.key, JsString(e.val));
  }

  /** An empty nested object: its `key:` line and the empty line after it,
      closed by the lines that follow. */
  lemma {:induction false} EmptyRead(P: seq<string>, e: Entry, T: seq<string>, acc: seq<Entry>, o: Options, depth: nat)
    requires IsKey(e.key) && e.val == Obj([])
    requires Put(acc, e.key, e.val) == acc + [e]
    requires Closed(T, o.indentation * depth)
    ensures var lines := P + EntryLines(e, o, depth) + T;
      && |P| < |lines| && !IsBlank(lines[|P|]) && Indent(lines[|P|]) == o.indentation * depth
      && FixedStep(lines, |P|, acc).0 == acc + [e]
      && FixedStep(lines, |P|, acc).1 == |P| + |EntryLines(e, o, depth)|
  {
    var pad := Pad(o, depth);
    var hdr := pad + e.key + ":";
    assert EntryLines(e, o, depth) == [hdr, ""];
    var lines := P + EntryLines(e, o, depth) + T;
    Around(P, [hdr, ""], T);
    ClassifyNested(pad, e.key);
    LineIndent(pad, e.key, ":");
    var ind := Indent(hdr);
    assert IsBlank(lines[|P| + 1]);
    assert FixedBlock(lines, ind, |P| + 1, []) == FixedBlock(lines, ind, |P| + 2, []);
    if |T| > 0 {
      assert lines[|P| + 2] == T[0];
    }
    assert FixedBlock(lines, ind, |P| + 2, []) == ([], |P| + 2);
  }

  /** A non-empty nested object: its `key:` line, then its own entries one
      level deeper, read as one block that the lines after it close. */
  lemma {:induction false} NestedRead(P: seq<string>, e: Entry, T: seq<string>, acc: seq<Entry>, o: Options, depth: nat)
    requires o.indentation > 0 && IsKey(e.key)
    requires e.val.Obj? && |e.val.fields| > 0 && NestedOk(e.val.fields, o.delimiter.Char())
    requires Put(acc, e.key, e.val) == acc + [e]
    requires Closed(T, o.indentation * depth)
    ensures var lines := P + EntryLines(e, o, depth) + T;
      && |P| < |lines| && !IsBlank(lines[|P|]) && Indent(lines[|P|]) == o.indentation * depth
      && FixedStep(lines, |P|, acc).0 == acc + [e]
      && FixedStep(lines, |P|, acc).1 == |P| + |EntryLines(e, o, depth)|
    decreases e, 0
  {
    var g := e.val.fields;
    var hdr := Pad(o, depth) + e.key + ":";
    var lines := P + EntryLines(e, o, depth) + T;
    NestedShape(P, e, T, o, depth);
    NextLevel(o.indentation, depth);
    assert [] + g == g;
    BlockRead(P + [hdr], g, T, [], o, depth + 1, o.indentation * depth);
    StepNestedFixed(lines, |P|, acc, e.key);
    assert Entry(e.key, Obj(g)) == e;
  }

  /** The lines of a non-empty nested object: its `key:` line, then its
      own lines one level deeper. */
  lemma {:induction false} NestedShape(P: seq<string>, e: Entry, T: seq<string>, o: Options, depth: nat)
    requires IsKey(e.key) && e.val.Obj? && |e.val.fields| > 0
    ensures var hdr := Pad(o, depth) + e.key + ":";
      var lines := P + EntryLines(e, o, depth) + T;
      && lines == (P + [hdr]) + ObjectLines(e.val.fields, o, depth + 1) + T
      && |P| < |lines| && lines[|P|] == hdr && |P + [hdr]| == |P| + 1
      && Classify(hdr) == NestedLine(e.key)
      && !IsBlank(hdr) && Indent(hdr) == o.indentation * depth
      && |EntryLines(e, o, depth)| == 1 + |ObjectLines(e.val.fields, o, depth + 1)|
  {
    var pad := Pad(o, depth);
    var hdr := pad + e.key + ":";
    var block := ObjectLines(e.val.fields, o, depth + 1);
    assert EntryLines(e, o, depth) == [hdr] + block;
    Nest(P, hdr, block, T);
    ClassifyNested(pad, e.key);
    LineIndent(pad, e.key, ":");
  }

  /** A table: its header line, then its rows, which the lines after them
      close. */
  lemma {:induction false} TableRead(P: seq<string>, e: Entry, T: seq<string>, acc: seq<Entry>, o: Options, depth: nat)
    requires o.indentation > 0 && IsKey(e.key)
    requires e.val.Arr? && TableOk(e.val.items, o.delimiter.Char())
    requires Put(acc, e.key, e.val) == acc + [e]
    requires Closed(T, o.indentation * depth)
    ensures var lines := P + EntryLines(e, o, depth) + T;
      && |P| < |lines| && !IsBlank(lines[|P|]) && Indent(lines[|P|]) == o.indentation * depth
      && FixedStep(lines, |P|, acc).0 == acc + [e]
      && FixedStep(lines, |P|, acc).1 == |P| + |EntryLines(e, o, depth)|
  {
    var xs := e.val.items;
    var keys := Keys(xs[0].fields);
    var pad := Pad(o, depth);
    var hdr := pad + e.key + Header(keys, |xs|, o);
    var rows := Rows(xs, keys, o, depth);
    TabularLines(e, o, depth);
    var lines := P + EntryLines(e, o, depth) + T;
    Nest(P, hdr, rows, T);
    ClassifyTabular(pad, e.key, keys, |xs|, o);
    LineIndent(pad, e.key, Header(keys, |xs|, o));
    HeaderFields(keys);
    RowsClosed(P + [hdr], xs, keys, T, o, depth);
    StepTabular(lines, |P|, acc, e.key, HeaderMatch(Join(keys, ","), o.delimiter, |Header(keys, |xs|, o)|));
    assert Entry(e.key, Arr(xs)) == e;
  }

  /** The rows of a good table, after lines `Q` and before lines `T` that
      close them at the header's indentation, are read as its elements. */
  lemma {:induction false} RowsClosed(Q: seq<string>, xs: seq<Value>, keys: seq<string>, T: seq<string>, o: Options, depth: nat)
    requires o.indentation > 0 && |keys| > 0 && RowsOk(xs, keys, o.delimiter.Char())
    requires Closed(T, o.indentation * depth)
    ensures var r := ParseRows(Q + Rows(xs, keys, o, depth) + T, |Q|, o.indentation * depth, keys, o.delimiter);
      r.0 == xs && r.1 == |Q| + |xs|
  {
    var h := o.indentation * depth;
    var rows := Rows(xs, keys, o, depth);
    var lines := Q + rows + T;
    var b := |Q| + |rows|;
    RowsIndent(xs, keys, o, depth);
    assert o.indentation * (depth + 1) == h + o.indentation;
    forall m | |Q| <= m < b
      ensures Indent(lines[m]) > h
    {
      assert lines[m] == rows[m - |Q|];
    }
    assert b == |lines| || lines[b] == T[0];
    RowsStop(lines, |Q|, b, h, keys, o.delimiter);
    var r := ParseRows(lines, |Q|, h, keys, o.delimiter);
    assert lines[|Q|..b] == rows;
    TableRows(xs, keys, o, depth);
    assert r.0 == BlockRows(rows, keys, o.delimiter);
  }

  /** The row loop stops at the first line no deeper than the header. */
  lemma {:induction false} RowsStop(lines: seq<string>, a: nat, b: nat, h: nat, keys: seq<string>, d: Delimiter)
    requires a <= b <= |lines|
    requires forall m :: a <= m < b ==> Indent(lines[m]) > h
    requires b == |lines| || Indent(lines[b]) <= h
    ensures ParseRows(lines, a, h, keys, d).1 == b
    ensures ParseRows(lines, a, h, keys, d).0 == BlockRows(lines[a..b], keys, d)
  {
    var r := ParseRows(lines, a, h, keys, d);
    assert r.1 < |lines| ==> Indent(lines[r.1]) <= h;
  }

  // ---------------------------------------------------------------------
  // A whole block.

  /** The lines of a good object, after any lines `P` and before lines `S`
      that close its block, are read by the corrected loop as its entries
      appended to `acc`, stopping where `S` starts. */
  lemma {:induction false} BlockRead(P: seq<string>, f: seq<Entry>, S: seq<string>, acc: seq<Entry>, o: Options, depth: nat, parent: int)
    requires o.indentation > 0 && NestedOk(f, o.delimiter.Char()) && UniqueKeys(acc + f)
    requires parent < o.indentation * depth && Closed(S, parent)
    ensures var lines := P + ObjectLines(f, o, depth) + S;
      && FixedBlock(lines, parent, |P|, acc).0 == acc + f
      && FixedBlock(lines, parent, |P|, acc).1 == |P| + |ObjectLines(f, o, depth)|
    decreases f, 2
  {
    if |f| == 0 {
      BlockEnd(P, f, S, acc, o, depth, parent);
    } else {
      BlockCons(P, f, S, acc, o, depth, parent);
    }
  }

  /** An object without entries leaves `acc` as it is, and the loop where
      `S` starts. */
  lemma {:induction false} BlockEnd(P: seq<string>, f: seq<Entry>, S: seq<string>, acc: seq<Entry>, o: Options, depth: nat, parent: int)
    requires |f| == 0 && Closed(S, parent)
    ensures var lines := P + ObjectLines(f, o, depth) + S;
      && FixedBlock(lines, parent, |P|, acc).0 == acc + f
      && FixedBlock(lines, parent, |P|, acc).1 == |P| + |ObjectLines(f, o, depth)|
  {
    var lines := P + ObjectLines(f, o, depth) + S;
    assert ObjectLines(f, o, depth) == [];
    assert lines == P + S;
    if |S| > 0 {
      assert lines[|P|] == S[0];
    }
    assert acc + f == acc;
  }

  /** The first entry's lines are read as the entry, and the rest of the
      block as the other entries. */
  lemma {:induction false} BlockCons(P: seq<string>, f: seq<Entry>, S: seq<string>, acc: seq<Entry>, o: Options, depth: nat, parent: int)
    requires o.indentation > 0 && |f| > 0 && NestedOk(f, o.delimiter.Char()) && UniqueKeys(acc + f)
    requires parent < o.indentation * depth && Closed(S, parent)
    ensures var lines := P + ObjectLines(f, o, depth) + S;
      && FixedBlock(lines, parent, |P|, acc).0 == acc + f
      && FixedBlock(lines, parent, |P|, acc).1 == |P| + |ObjectLines(f, o, depth)|
    decreases f, 1
  {
    var lines := P + ObjectLines(f, o, depth) + S;
    var e := f[0];
    var el := EntryLines(e, o, depth);
    var rest := ObjectLines(f[1..], o, depth);
    assert ObjectLines(f, o, depth) == el + rest;
    Split3(P, el, rest, S);
    assert lines == P + el + (rest + S);
    assert lines == (P + el) + rest + S;
    FreshKey(acc, f);
    NestedTail(f, o.delimiter.Char());
    RestCloses(f[1..], S, o, depth, parent);
    EntryRead(P, e, rest + S, acc, o, depth);
    var st := FixedStep(lines, |P|, acc);
    assert st.0 == acc + [e] && st.1 == |P + el|;
    BlockEnter(lines, parent, |P|, acc);
    BlockRead(P + el, f[1..], S, acc + [e], o, depth, parent);
    var r := FixedBlock(lines, parent, |P + el|, acc + [e]);
    assert r.0 == (acc + [e]) + f[1..] && r.1 == |P + el| + |rest|;
  }

  /** What follows the first entry of a block closes it: the next entry's
      key line at the block's own indentation, or the lines after the
      block. */
  lemma {:induction false} RestCloses(f: seq<Entry>, S: seq<string>, o: Options, depth: nat, parent: int)
    requires NestedOk(f, o.delimiter.Char())
    requires parent < o.indentation * depth && Closed(S, parent)
    ensures Closed(ObjectLines(f, o, depth) + S, o.indentation * depth)
  {
    if |f| > 0 {
      var e := f[0];
      assert IsKey(e.key) && ValueOk(e.val, o.delimiter.Char());
      EntryHead(e, o, depth);
      assert ObjectLines(f, o, depth) == EntryLines(e, o, depth) + ObjectLines(f[1..], o, depth);
      assert (ObjectLines(f, o, depth) + S)[0] == EntryLines(e, o, depth)[0];
    } else {
      assert ObjectLines(f, o, depth) + S == S;
    }
  }

  /** The first line of a good entry is its key, indented by the depth. */
  lemma {:induction false} EntryHead(e: Entry, o: Options, depth: nat)
    requires IsKey(e.key) && ValueOk(e.val, o.delimiter.Char())
    ensures var first := EntryLines(e, o, depth)[0];
      !IsBlank(first) && Indent(first) == o.indentation * depth
  {
    var pad := Pad(o, depth);
    var first := EntryLines(e, o, depth)[0];
    if ScalarOk(e.val) {
      ScalarLines(e, o, depth);
      assert first == pad + e.key + ": " + JsString(e.val);
      PairIndent(pad, e.key, JsString(e.val));
    } else if e.val.Obj? {
      assert first == pad + e.key + ":";
      LineIndent(pad, e.key, ":");
    } else {
      var xs := e.val.items;
      TabularLines(e, o, depth);
      assert first == pad + e.key + Header(Keys(xs[0].fields), |xs|, o);
      LineIndent(pad, e.key, Header(Keys(xs[0].fields), |xs|, o));
    }
  }

  /** The entries after the first of a good object are good, and so is the
      first. */
  lemma {:induction false} NestedTail(f: seq<Entry>, c: char)
    requires |f| > 0 && NestedOk(f, c)
    ensures NestedOk(f[1..], c) && IsKey(f[0].key) && ValueOk(f[0].val, c)
  {
    assert forall i :: 0 <= i < |f| - 1 ==> f[1..][i] == f[i + 1];
  }

  /** One level deeper is one indentation further in; stated apart so that
      the product meets no string facts. */
  lemma {:induction false} NextLevel(n: nat, depth: nat)
    ensures n * (depth + 1) == n * depth + n
  {
  }

  /** Lines around a run: its first line sits right after `P`. */
  lemma {:induction false} Around<T>(P: seq<T>, mid: seq<T>, S: seq<T>)
    requires |mid| > 0
    ensures |P + mid + S| == |P| + |mid| + |S| && (P + mid + S)[|P|] == mid[0]
    ensures forall k :: 0 <= k < |mid| ==> (P + mid + S)[|P| + k] == mid[k]
    ensures |S| > 0 ==> (P + mid + S)[|P| + |mid|] == S[0]
  {
  }

  /** A first line and a run after it, regrouped. */
  lemma {:induction false} Nest<T>(P: seq<T>, hdr: T, block: seq<T>, S: seq<T>)
    ensures P + ([hdr] + block) + S == (P + [hdr]) + block + S
    ensures (P + ([hdr] + block) + S)[|P|] == hdr
  {
  }

  /** Two runs between `P` and `S`, regrouped. */
  lemma {:induction false} Split3<T>(P: seq<T>, a: seq<T>, b: seq<T>, S: seq<T>)
    ensures P + (a + b) + S == P + a + (b + S)
    ensures P + (a + b) + S == (P + a) + b + S
  {
  }

  // ---------------------------------------------------------------------
  // Whole texts.

  /** No line of a good object holds a newline. */
  lemma {:induction false} NestedLinesSingle(f: seq<Entry>, o: Options, depth: nat)
    requires NestedOk(f, o.delimiter.Char())
    ensures forall i :: 0 <= i < |ObjectLines(f, o, depth)| ==> '\n' !in ObjectLines(f, o, depth)[i]
    decreases f, 1
  {
    if |f| > 0 {
      NestedTail(f, o.delimiter.Char());
      ValueSingle(f[0], o, depth);
      NestedLinesSingle(f[1..], o, depth);
      BothSingle(EntryLines(f[0], o, depth), ObjectLines(f[1..], o, depth));
    }
  }

  lemma {:induction false} ValueSingle(e: Entry, o: Options, depth: nat)
    requires IsKey(e.key) && ValueOk(e.val, o.delimiter.Char())
    ensures forall i :: 0 <= i < |EntryLines(e, o, depth)| ==> '\n' !in EntryLines(e, o, depth)[i]
    decreases e, 0
  {
    if ScalarOk(e.val) {
      ScalarEntrySingle(e, o, depth);
    } else if e.val.Obj? {
      var g := e.val.fields;
      var head := Pad(o, depth) + e.key + ":";
      var block := BlockLines(g, o, depth + 1);
      KeyLineSingle(o, depth, e.key, ":");
      if |g| > 0 {
        NestedLinesSingle(g, o, depth + 1);
        assert block == ObjectLines(g, o, depth + 1);
      } else {
        assert block == [""];
      }
      assert EntryLines(e, o, depth) == [head] + block;
      HeadRowsSingle(head, block);
    } else {
      TabularEntrySingle(e, o, depth);
    }
  }

  lemma {:induction false} BothSingle(a: seq<string>, b: seq<string>)
    requires forall i :: 0 <= i < |a| ==> '\n' !in a[i]
    requires forall i :: 0 <= i < |b| ==> '\n' !in b[i]
    ensures forall i :: 0 <= i < |a + b| ==> '\n' !in (a + b)[i]
  {
  }

  /** An object of good entries, written with a positive indentation,
      reads back as itself under the corrected decoder, whatever the order
      of its scalars, nested objects and tables. */
  lemma {:induction false} FixedRoundTripObject(f: seq<Entry>, o: Options)
    requires o.indentation > 0 && NestedOk(f, o.delimiter.Char())
    ensures FixedToonToJson(JsonToToon(Obj(f), o)) == Success(Obj(f))
  {
    var lines := ObjectLines(f, o, 0);
    ConvertObjectLines(f, o, 0);
    assert JsonToToon(Obj(f), o) == Join(lines, "\n");
    if |f| == 0 {
      assert lines == [];
      FixedEmptyText();
    } else {
      NestedLinesSingle(f, o, 0);
      assert "\n" == ['\n'];
      SplitJoin(lines, '\n');
      FirstLine(f, o);
      FixedObjectText(Join(lines, "\n"), lines);
      FixedText(f, o);
    }
  }

  /** The lines of a non-empty good object are read as the object by the
      corrected top-level loop. */
  lemma {:induction false} FixedText(f: seq<Entry>, o: Options)
    requires o.indentation > 0 && |f| > 0 && NestedOk(f, o.delimiter.Char())
    ensures FixedBlock(ObjectLines(f, o, 0), -1, 0, []).0 == f
  {
    var lines := ObjectLines(f, o, 0);
    NoPrefix(f);
    BlockRead([], f, [], [], o, 0, -1);
    assert [] + lines + [] == lines;
    assert [] + f == f;
  }

  /** A good table, written at the root, reads back as itself under the
      corrected decoder too. */
  lemma {:induction false} FixedRoundTripRoot(xs: seq<Value>, o: Options)
    requires TableOk(xs, o.delimiter.Char())
    ensures FixedToonToJson(JsonToToon(Arr(xs), o)) == Success(Arr(xs))
  {
    RootLines(xs, o);
    RootParse(xs, o);
  }

  /** Every object the source's decoder reads back is good here, so on the
      encoder's output the two decoders agree wherever the source's already
      gives the data back. */
  lemma {:induction false} FixedExtends(f: seq<Entry>, o: Options)
    requires o.indentation > 0 && EntriesOk(f, o.delimiter.Char())
    ensures NestedOk(f, o.delimiter.Char())
    ensures FixedToonToJson(JsonToToon(Obj(f), o)) == ToonToJson(JsonToToon(Obj(f), o))
  {
    EntriesNested(f, o.delimiter.Char());
    FixedRoundTripObject(f, o);
    RoundTripObject(f, o);
  }

  lemma {:induction false} EntriesNested(f: seq<Entry>, c: char)
    requires EntriesOk(f, c)
    ensures NestedOk(f, c)
    decreases f, 1
  {
    forall i | 0 <= i < |f|
      ensures ValueOk(f[i].val, c)
    {
      if i == |f| - 1 {
        LastNested(f[i].val, c);
      }
    }
  }

  lemma {:induction false} LastNested(v: Value, c: char)
    requires LastOk(v, c)
    ensures ValueOk(v, c)
    decreases v, 0
  {
    if !ScalarOk(v) && v.Obj? {
      EntriesNested(v.fields, c);
    }
  }

  // ---------------------------------------------------------------------
  // The two texts the source's decoder misreads.

  /** `{a: {b: v}, c: w}`, which the source's decoder reads as
      `{a: {b: v}}`, reads back whole. */
  lemma {:induction false} KeyAfterNestedKept(a: string, b: string, c: string, v: Value, w: Value, o: Options)
    requires o.indentation > 0 && IsKey(a) && IsKey(b) && IsKey(c) && a != c && ScalarOk(v) && ScalarOk(w)
    ensures FixedToonToJson(JsonToToon(Obj([Entry(a, Obj([Entry(b, v)])), Entry(c, w)]), o))
      == Success(Obj([Entry(a, Obj([Entry(b, v)])), Entry(c, w)]))
  {
    var d := o.delimiter.Char();
    var inner := [Entry(b, v)];
    OneOk(Entry(b, v), d);
    assert ValueOk(Obj(inner), d);
    TwoOk(Entry(a, Obj(inner)), Entry(c, w), d);
    FixedRoundTripObject([Entry(a, Obj(inner)), Entry(c, w)], o);
  }

  /** `{a: {}, b: v}`, which the source's decoder reads as `{a: {b: v}}`,
      reads back whole. */
  lemma {:induction false} EmptyNestedKept(a: string, b: string, v: Value, o: Options)
    requires o.indentation > 0 && IsKey(a) && IsKey(b) && a != b && ScalarOk(v)
    ensures FixedToonToJson(JsonToToon(Obj([Entry(a, Obj([])), Entry(b, v)]), o))
      == Success(Obj([Entry(a, Obj([])), Entry(b, v)]))
  {
    var d := o.delimiter.Char();
    assert ValueOk(Obj([]), d);
    TwoOk(Entry(a, Obj([])), Entry(b, v), d);
    FixedRoundTripObject([Entry(a, Obj([])), Entry(b, v)], o);
  }

  lemma {:induction false} OneOk(x: Entry, c: char)
    requires IsKey(x.key) && ValueOk(x.val, c)
    ensures NestedOk([x], c)
  {
  }

  lemma {:induction false} TwoOk(x: Entry, y: Entry, c: char)
    requires IsKey(x.key) && ValueOk(x.val, c)
    requires IsKey(y.key) && ValueOk(y.val, c)
    requires x.key != y.key
    ensures NestedOk([x, y], c)
  {
  }
}
