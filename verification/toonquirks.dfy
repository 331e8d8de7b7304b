/** Two ways the TOON decoder moves or loses an entry the encoder wrote.
    The dedent test compares a line with the physical line just before it,
    so a key written after a nested block is never read; and an empty nested
    object leaves an empty line behind, which lets the next key fall into
    the nested object. */
module ToonQuirks {
  import opened Wrappers
  import opened Text
  import opened Values
  import opened Scalars
  import opened Encoder
  import opened Decoder
  import opened RoundTrip

  /** An object written at the top level whose lines hold no newline is
      read by `parseToonLines` from its first line: the text is not taken
      for a root array. */
  lemma {:induction false} ReadObject(f: seq<Entry>, o: Options)
    requires |f| > 0 && IsKey(f[0].key)
    requires forall i :: 0 <= i < |ObjectLines(f, o, 0)| ==> '\n' !in ObjectLines(f, o, 0)[i]
    ensures ToonToJson(JsonToToon(Obj(f), o)) == Success(ParseToonLines(ObjectLines(f, o, 0), 0).0)
  {
    var lines := ObjectLines(f, o, 0);
    ObjectJoin(f, o);
    assert "\n" == ['\n'];
    SplitJoin(lines, '\n');
    FirstLine(f, o);
  }

  /** An object is written as its lines joined with newlines. */
  lemma {:induction false} ObjectJoin(f: seq<Entry>, o: Options)
    ensures JsonToToon(Obj(f), o) == Join(ObjectLines(f, o, 0), "\n")
  {
    ConvertObjectLines(f, o, 0);
  }

  /** Facts about a `key:` line the encoder wrote. */
  lemma {:induction false} OpenFacts(o: Options, depth: nat, key: string)
    requires IsKey(key)
    ensures var line := Pad(o, depth) + key + ":";
      && Classify(line) == NestedLine(key) && !IsBlank(line) && Indent(line) == o.indentation * depth
  {
    ClassifyNested(Pad(o, depth), key);
    LineIndent(Pad(o, depth), key, ":");
  }

  /** The loop stops at a non-blank line less indented than the one before. */
  lemma {:induction false} StopAt(lines: seq<string>, start: nat, i: nat, acc: seq<Entry>)
    requires start < i < |lines| && !IsBlank(lines[i]) && Indent(lines[i]) < Indent(lines[i - 1])
    ensures ParseBlock(lines, start, i, acc) == (acc, i)
  {
  }

  lemma {:induction false} PutIntoEmpty(k: string, v: Value)
    ensures Put([], k, v) == [Entry(k, v)]
  {
  }

  // ---------------------------------------------------------------------
  // A key after a nested object.

  /** Two entries are written as the lines of the first, then those of
      the second. */
  lemma {:induction false} TwoEntryLines(x: Entry, y: Entry, o: Options, depth: nat)
    ensures ObjectLines([x, y], o, depth) == EntryLines(x, o, depth) + EntryLines(y, o, depth)
  {
    var f := [x, y];
    assert f[1..] == [y] && [y][1..] == [];
    assert ObjectLines([y], o, depth) == EntryLines(y, o, depth) + [];
    assert EntryLines(y, o, depth) + [] == EntryLines(y, o, depth);
  }

  /** A nested object with entries is written as `key:` followed by its
      own lines one level deeper. */
  lemma {:induction false} NestedEntryLines(key: string, g: seq<Entry>, o: Options, depth: nat)
    requires |g| > 0
    ensures EntryLines(Entry(key, Obj(g)), o, depth) == [Pad(o, depth) + key + ":"] + ObjectLines(g, o, depth + 1)
  {
  }

  /** One scalar entry nested one level down is one line. */
  lemma {:induction false} InnerLine(e: Entry, o: Options)
    requires ScalarOk(e.val)
    ensures ObjectLines([e], o, 1) == [Pad(o, 1) + e.key + ": " + JsString(e.val)]
  {
    assert [e][1..] == [];
    ScalarLines(e, o, 1);
  }

  /** `{a: {b: v}, c: w}` is written as three lines. */
  lemma {:induction false} NestedFirstLines(a: string, b: string, c: string, v: Value, w: Value, o: Options)
    requires ScalarOk(v) && ScalarOk(w)
    ensures ObjectLines([Entry(a, Obj([Entry(b, v)])), Entry(c, w)], o, 0)
      == [Pad(o, 0) + a + ":", Pad(o, 1) + b + ": " + JsString(v), Pad(o, 0) + c + ": " + JsString(w)]
  {
    var first := Entry(a, Obj([Entry(b, v)]));
    TwoEntryLines(first, Entry(c, w), o, 0);
    FirstEntryLines(a, b, v, o);
    ScalarLines(Entry(c, w), o, 0);
    ThreeLines(EntryLines(first, o, 0), EntryLines(Entry(c, w), o, 0),
      Pad(o, 0) + a + ":", Pad(o, 1) + b + ": " + JsString(v), Pad(o, 0) + c + ": " + JsString(w));
  }

  /** `a: {b: v}` is written as two lines. */
  lemma {:induction false} FirstEntryLines(a: string, b: string, v: Value, o: Options)
    requires ScalarOk(v)
    ensures EntryLines(Entry(a, Obj([Entry(b, v)])), o, 0) == [Pad(o, 0) + a + ":", Pad(o, 1) + b + ": " + JsString(v)]
  {
    NestedEntryLines(a, [Entry(b, v)], o, 0);
    InnerLine(Entry(b, v), o);
  }


  /** Read over abstract lines: the outer call opens `a`, the nested call
      reads `b`, and both stop at the third line, which is less indented
      than the second. */
  lemma {:induction false} NestedStops(lines: seq<string>, a: string, b: string, v: Value)
    requires |lines| == 3 && !IsBlank(lines[0]) && !IsBlank(lines[1]) && !IsBlank(lines[2])
    requires Step(lines, 0, []) == (Put([], a, Obj(ParseBlock(lines, 1, 1, []).0)), ParseBlock(lines, 1, 1, []).1)
    requires Step(lines, 1, []) == (Put([], b, v), 2)
    requires Indent(lines[2]) < Indent(lines[1])
    ensures ParseToonLines(lines, 0) == (Obj([Entry(a, Obj([Entry(b, v)]))]), 2)
  {
    EnterLine(lines, 1, 1, []);
    PutIntoEmpty(b, v);
    StopAt(lines, 1, 2, [Entry(b, v)]);
    EnterLine(lines, 0, 0, []);
    PutIntoEmpty(a, Obj([Entry(b, v)]));
    StopAt(lines, 0, 2, [Entry(a, Obj([Entry(b, v)]))]);
  }

  /** Read over abstract lines from what each line is: `a:` opens a
      nested object, `b: t` is a pair, and the third line is less indented
      than the second. */
  lemma {:induction false} NestedParse(lines: seq<string>, a: string, b: string, t: string, v: Value)
    requires |lines| == 3 && !IsBlank(lines[0]) && !IsBlank(lines[1]) && !IsBlank(lines[2])
    requires Classify(lines[0]) == NestedLine(a) && Classify(lines[1]) == KeyValueLine(b, t) && ParseValue(t) == v
    requires Indent(lines[2]) < Indent(lines[1])
    ensures ParseToonLines(lines, 0) == (Obj([Entry(a, Obj([Entry(b, v)]))]), 2)
  {
    StepNested(lines, 0, [], a);
    StepKeyValue(lines, 1, [], b, t);
    NestedStops(lines, a, b, v);
  }

  /** What each of the three lines of `{a: {b: v}, c: w}` is. */
  lemma {:induction false} NestedFacts(a: string, b: string, c: string, v: Value, w: Value, o: Options)
    requires o.indentation > 0 && IsKey(a) && IsKey(b) && IsKey(c) && ScalarOk(v) && ScalarOk(w)
    ensures var lines := ObjectLines([Entry(a, Obj([Entry(b, v)])), Entry(c, w)], o, 0);
      && |lines| == 3 && !IsBlank(lines[0]) && !IsBlank(lines[1]) && !IsBlank(lines[2])
      && Classify(lines[0]) == NestedLine(a) && Classify(lines[1]) == KeyValueLine(b, JsString(v))
      && ParseValue(JsString(v)) == v && Indent(lines[2]) < Indent(lines[1])
  {
    NestedFirstLines(a, b, c, v, w, o);
    NestedLineFacts(ObjectLines([Entry(a, Obj([Entry(b, v)])), Entry(c, w)], o, 0), a, b, c, v, w, o);
  }

  lemma {:induction false} NestedLineFacts(lines: seq<string>, a: string, b: string, c: string, v: Value, w: Value, o: Options)
    requires o.indentation > 0 && IsKey(a) && IsKey(b) && IsKey(c) && ScalarOk(v) && ScalarOk(w)
    requires |lines| == 3 && lines[0] == Pad(o, 0) + a + ":"
    requires lines[1] == Pad(o, 1) + b + ": " + JsString(v) && lines[2] == Pad(o, 0) + c + ": " + JsString(w)
    ensures !IsBlank(lines[0]) && !IsBlank(lines[1]) && !IsBlank(lines[2])
    ensures Classify(lines[0]) == NestedLine(a) && Classify(lines[1]) == KeyValueLine(b, JsString(v))
    ensures ParseValue(JsString(v)) == v && Indent(lines[2]) < Indent(lines[1])
  {
    OpenFacts(o, 0, a);
    ScalarLine(Entry(b, v), o, 1);
    ScalarLine(Entry(c, w), o, 0);
  }

  /** A `key: text` line holds no newline when its text holds none. */
  lemma {:induction false} PairSingle(o: Options, depth: nat, key: string, t: string)
    requires IsKey(key) && '\n' !in t
    ensures '\n' !in Pad(o, depth) + key + ": " + t
  {
    KeyLineSingle(o, depth, key, ": " + t);
    assert Pad(o, depth) + key + ": " + t == Pad(o, depth) + key + (": " + t);
  }

  /** A scalar entry's line holds no newline. */
  lemma {:induction false} ScalarLineSingle(o: Options, depth: nat, key: string, v: Value)
    requires IsKey(key) && ScalarOk(v)
    ensures '\n' !in Pad(o, depth) + key + ": " + JsString(v)
  {
    ScalarSingle(v);
    PairSingle(o, depth, key, JsString(v));
  }

  /** Three lines, none holding a newline. */
  lemma {:induction false} ThreeSingle(lines: seq<string>, x: string, y: string, z: string)
    requires lines == [x, y, z] && '\n' !in x && '\n' !in y && '\n' !in z
    ensures forall i :: 0 <= i < |lines| ==> '\n' !in lines[i]
  {
  }

  /** No line of `{a: {b: v}, c: w}` holds a newline. */
  lemma {:induction false} NestedSingle(a: string, b: string, c: string, t: string, u: string, o: Options)
    requires IsKey(a) && IsKey(b) && IsKey(c) && '\n' !in t && '\n' !in u
    ensures '\n' !in Pad(o, 0) + a + ":"
    ensures '\n' !in Pad(o, 1) + b + ": " + t
    ensures '\n' !in Pad(o, 0) + c + ": " + u
  {
    KeyLineSingle(o, 0, a, ":");
    PairSingle(o, 1, b, t);
    PairSingle(o, 0, c, u);
  }

  /** The lines of `{a: {b: v}, c: w}` hold no newline. */
  lemma {:induction false} NestedLinesSingle(a: string, b: string, c: string, v: Value, w: Value, o: Options)
    requires IsKey(a) && IsKey(b) && IsKey(c) && ScalarOk(v) && ScalarOk(w)
    ensures var lines := ObjectLines([Entry(a, Obj([Entry(b, v)])), Entry(c, w)], o, 0);
      forall i :: 0 <= i < |lines| ==> '\n' !in lines[i]
  {
    var lines := ObjectLines([Entry(a, Obj([Entry(b, v)])), Entry(c, w)], o, 0);
    NestedFirstLines(a, b, c, v, w, o);
    ScalarSingle(v);
    ScalarSingle(w);
    NestedSingle(a, b, c, JsString(v), JsString(w), o);
    ThreeSingle(lines, Pad(o, 0) + a + ":", Pad(o, 1) + b + ": " + JsString(v), Pad(o, 0) + c + ": " + JsString(w));
  }

  /** The lines of `{a: {b: v}, c: w}` are read as `{a: {b: v}}`. */
  lemma {:induction false} NestedRead(a: string, b: string, c: string, v: Value, w: Value, o: Options)
    requires o.indentation > 0 && IsKey(a) && IsKey(b) && IsKey(c) && ScalarOk(v) && ScalarOk(w)
    ensures ParseToonLines(ObjectLines([Entry(a, Obj([Entry(b, v)])), Entry(c, w)], o, 0), 0).0
      == Obj([Entry(a, Obj([Entry(b, v)]))])
  {
    var lines := ObjectLines([Entry(a, Obj([Entry(b, v)])), Entry(c, w)], o, 0);
    NestedFacts(a, b, c, v, w, o);
    NestedParse(lines, a, b, JsString(v), v);
  }

  /** A key written after a nested object is lost: `{a: {b: v}, c: w}`
      reads back as `{a: {b: v}}`, for any positive indentation. */
  lemma {:induction false} KeyAfterNestedLost(a: string, b: string, c: string, v: Value, w: Value, o: Options)
    requires o.indentation > 0 && IsKey(a) && IsKey(b) && IsKey(c) && ScalarOk(v) && ScalarOk(w)
    ensures ToonToJson(JsonToToon(Obj([Entry(a, Obj([Entry(b, v)])), Entry(c, w)]), o))
      == Success(Obj([Entry(a, Obj([Entry(b, v)]))]))
  {
    NestedLinesSingle(a, b, c, v, w, o);
    NestedRead(a, b, c, v, w, o);
    ReadObject([Entry(a, Obj([Entry(b, v)])), Entry(c, w)], o);
  }

  // ---------------------------------------------------------------------
  // A key after an empty nested object.

  /** `{a: {}, b: v}` is written as `a:`, an empty line, and `b: v`. */
  lemma {:induction false} EmptyNestedLines(a: string, b: string, v: Value, o: Options)
    requires ScalarOk(v)
    ensures ObjectLines([Entry(a, Obj([])), Entry(b, v)], o, 0)
      == [Pad(o, 0) + a + ":", "", Pad(o, 0) + b + ": " + JsString(v)]
  {
    var first := Entry(a, Obj([]));
    TwoEntryLines(first, Entry(b, v), o, 0);
    EmptyEntryLines(a, o);
    ScalarLines(Entry(b, v), o, 0);
    ThreeLines(EntryLines(first, o, 0), EntryLines(Entry(b, v), o, 0),
      Pad(o, 0) + a + ":", "", Pad(o, 0) + b + ": " + JsString(v));
  }

  /** An empty nested object is written as `key:` and an empty line. */
  lemma {:induction false} EmptyEntryLines(a: string, o: Options)
    ensures EntryLines(Entry(a, Obj([])), o, 0) == [Pad(o, 0) + a + ":", ""]
  {
    assert BlockLines([], o, 1) == [""];
  }

  /** Read over abstract lines: the nested call passes over the blank
      second line and reads the third, which is no less indented, to the
      end. */
  lemma {:induction false} EmptyNestedReads(lines: seq<string>, a: string, b: string, v: Value)
    requires |lines| == 3 && !IsBlank(lines[0]) && IsBlank(lines[1]) && !IsBlank(lines[2])
    requires Step(lines, 0, []) == (Put([], a, Obj(ParseBlock(lines, 1, 1, []).0)), ParseBlock(lines, 1, 1, []).1)
    requires Step(lines, 2, []) == (Put([], b, v), 3)
    requires Indent(lines[2]) >= Indent(lines[1])
    ensures ParseToonLines(lines, 0) == (Obj([Entry(a, Obj([Entry(b, v)]))]), 3)
  {
    EnterLine(lines, 1, 2, []);
    PutIntoEmpty(b, v);
    EnterLine(lines, 0, 0, []);
    PutIntoEmpty(a, Obj([Entry(b, v)]));
  }

  lemma {:induction false} EmptyNestedParse(lines: seq<string>, a: string, b: string, t: string, v: Value)
    requires |lines| == 3 && !IsBlank(lines[0]) && IsBlank(lines[1]) && !IsBlank(lines[2])
    requires Classify(lines[0]) == NestedLine(a) && Classify(lines[2]) == KeyValueLine(b, t) && ParseValue(t) == v
    requires Indent(lines[2]) >= Indent(lines[1])
    ensures ParseToonLines(lines, 0) == (Obj([Entry(a, Obj([Entry(b, v)]))]), 3)
  {
    StepNested(lines, 0, [], a);
    StepKeyValue(lines, 2, [], b, t);
    EmptyNestedReads(lines, a, b, v);
  }

  /** What each of the three lines of `{a: {}, b: v}` is. */
  lemma {:induction false} EmptyNestedFacts(a: string, b: string, v: Value, o: Options)
    requires IsKey(a) && IsKey(b) && ScalarOk(v)
    ensures var lines := ObjectLines([Entry(a, Obj([])), Entry(b, v)], o, 0);
      && |lines| == 3 && !IsBlank(lines[0]) && IsBlank(lines[1]) && !IsBlank(lines[2])
      && Classify(lines[0]) == NestedLine(a) && Classify(lines[2]) == KeyValueLine(b, JsString(v))
      && ParseValue(JsString(v)) == v && Indent(lines[2]) >= Indent(lines[1])
  {
    EmptyNestedLines(a, b, v, o);
    EmptyLineFacts(ObjectLines([Entry(a, Obj([])), Entry(b, v)], o, 0), a, b, v, o);
  }

  lemma {:induction false} EmptyLineFacts(lines: seq<string>, a: string, b: string, v: Value, o: Options)
    requires IsKey(a) && IsKey(b) && ScalarOk(v)
    requires |lines| == 3 && lines[0] == Pad(o, 0) + a + ":" && lines[1] == ""
    requires lines[2] == Pad(o, 0) + b + ": " + JsString(v)
    ensures !IsBlank(lines[0]) && IsBlank(lines[1]) && !IsBlank(lines[2])
    ensures Classify(lines[0]) == NestedLine(a) && Classify(lines[2]) == KeyValueLine(b, JsString(v))
    ensures ParseValue(JsString(v)) == v && Indent(lines[2]) >= Indent(lines[1])
  {
    OpenFacts(o, 0, a);
    ScalarLine(Entry(b, v), o, 0);
    assert IsBlank(lines[1]) && Indent(lines[1]) == 0;
  }


  /** The three lines joined are `a:\n\nb: v`. */
  lemma {:induction false} EmptyNestedText(a: string, b: string, t: string, o: Options)
    ensures Join([Pad(o, 0) + a + ":", "", Pad(o, 0) + b + ": " + t], "\n") == a + ":\n\n" + b + ": " + t
  {
    var l0 := Pad(o, 0) + a + ":";
    var l2 := Pad(o, 0) + b + ": " + t;
    var ls := [l0, "", l2];
    assert ls[1..] == ["", l2] && ls[1..][1..] == [l2];
    assert Join([l2], "\n") == l2;
    assert Join(["", l2], "\n") == "" + "\n" + l2;
    assert Join(ls, "\n") == l0 + "\n" + ("" + "\n" + l2);
    assert Pad(o, 0) == "";
    assert l0 == a + ":" && l2 == b + ": " + t;
  }

  /** An empty nested object swallows the key after it: `{a: {}, b: v}`
      is written as `a:\n\nb: v`, which reads back as `{a: {b: v}}`. */
  lemma {:induction false} EmptyNestedAbsorbs(a: string, b: string, v: Value, o: Options)
    requires IsKey(a) && IsKey(b) && ScalarOk(v)
    ensures JsonToToon(Obj([Entry(a, Obj([])), Entry(b, v)]), o) == a + ":\n\n" + b + ": " + JsString(v)
    ensures ToonToJson(JsonToToon(Obj([Entry(a, Obj([])), Entry(b, v)]), o))
      == Success(Obj([Entry(a, Obj([Entry(b, v)]))]))
  {
    EmptyNestedWritten(a, b, v, o);
    EmptyLinesSingle(a, b, v, o);
    EmptyNestedRead(a, b, v, o);
    ReadObject([Entry(a, Obj([])), Entry(b, v)], o);
  }

  /** `{a: {}, b: v}` is written as `a:\n\nb: v`. */
  lemma {:induction false} EmptyNestedWritten(a: string, b: string, v: Value, o: Options)
    requires ScalarOk(v)
    ensures JsonToToon(Obj([Entry(a, Obj([])), Entry(b, v)]), o) == a + ":\n\n" + b + ": " + JsString(v)
  {
    ObjectJoin([Entry(a, Obj([])), Entry(b, v)], o);
    EmptyNestedLines(a, b, v, o);
    EmptyNestedText(a, b, JsString(v), o);
  }

  /** The lines of `{a: {}, b: v}` hold no newline. */
  lemma {:induction false} EmptyLinesSingle(a: string, b: string, v: Value, o: Options)
    requires IsKey(a) && IsKey(b) && ScalarOk(v)
    ensures var lines := ObjectLines([Entry(a, Obj([])), Entry(b, v)], o, 0);
      forall i :: 0 <= i < |lines| ==> '\n' !in lines[i]
  {
    var lines := ObjectLines([Entry(a, Obj([])), Entry(b, v)], o, 0);
    EmptyNestedLines(a, b, v, o);
    EmptySingle(a, b, v, o);
    ThreeSingle(lines, Pad(o, 0) + a + ":", "", Pad(o, 0) + b + ": " + JsString(v));
  }

  /** The lines of `{a: {}, b: v}` are read as `{a: {b: v}}`. */
  lemma {:induction false} EmptyNestedRead(a: string, b: string, v: Value, o: Options)
    requires IsKey(a) && IsKey(b) && ScalarOk(v)
    ensures ParseToonLines(ObjectLines([Entry(a, Obj([])), Entry(b, v)], o, 0), 0).0
      == Obj([Entry(a, Obj([Entry(b, v)]))])
  {
    var lines := ObjectLines([Entry(a, Obj([])), Entry(b, v)], o, 0);
    EmptyNestedFacts(a, b, v, o);
    EmptyNestedParse(lines, a, b, JsString(v), v);
  }

  /** The lines of `{a: {}, b: v}` hold no newline. */
  lemma {:induction false} EmptySingle(a: string, b: string, v: Value, o: Options)
    requires IsKey(a) && IsKey(b) && ScalarOk(v)
    ensures '\n' !in Pad(o, 0) + a + ":"
    ensures '\n' !in Pad(o, 0) + b + ": " + JsString(v)
  {
    KeyLineSingle(o, 0, a, ":");
    ScalarLineSingle(o, 0, b, v);
  }

  /** Concatenating two lines and one, stated apart so that the sequence
      axioms meet only these three lines and not the JSON text inside them. */
  lemma {:induction false} ThreeLines(p: seq<string>, q: seq<string>, x: string, y: string, z: string)
    requires p == [x, y] && q == [z]
    ensures p + q == [x, y, z]
  {
  }
}
