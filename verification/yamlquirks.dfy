/** What `yamlToJson` does with the `- ` lines `jsonToYaml` writes for an
    array: at the top level the first item line throws, and under a key the
    items go to the parent under the text `undefined`, each replacing the one
    before, while the key keeps the empty object its `key:` line made. */
module YamlQuirks {
  import opened Wrappers
  import opened Text
  import opened Numbers
  import opened Values
  import opened Scalars
  import opened Yaml
  import opened YamlRoundTrip

  /** Every element is a scalar that reads back as itself. */
  predicate ScalarItems(xs: seq<Value>) {
    forall i :: 0 <= i < |xs| ==> YamlScalarOk(xs[i])
  }

  /** Assigning twice to one key keeps the second value only. */
  lemma {:induction false} PutPut(f: seq<Entry>, k: string, a: Value, b: Value)
    ensures Put(Put(f, k, a), k, b) == Put(f, k, b)
  {
    if k in Keys(f) {
      var i := IndexOfKey(f, k);
      var g := f[i := Entry(k, a)];
      assert Keys(g) == Keys(f);
      assert IndexOfKey(g, k) == i;
    } else {
      PutLast(f, k, a, b);
    }
  }

  /** The writer's line for a scalar item is read as a `- ` line whose value
      is the item's text. */
  lemma {:induction false} ItemLine(fs: seq<Frame>, n: nat, x: Value)
    requires |fs| > 0 && YamlScalarOk(x)
    ensures Step(fs, Spaces(n) + "- " + JsString(x)) == Item(fs, JsString(x))
    ensures ParseYamlValue(JsString(x)) == x && '\n' !in Spaces(n) + "- " + JsString(x)
  {
    ScalarText(x);
    ItemTrim(n, JsString(x));
    StepItem(fs, Spaces(n) + "- " + JsString(x), JsString(x));
    ItemNoNewline(n, JsString(x));
  }

  /** Trimming an item line leaves `- ` and the text. */
  lemma {:induction false} ItemTrim(n: nat, text: string)
    requires |text| > 0 && NoSurroundingSpace(text)
    ensures Trim(Spaces(n) + "- " + text) == "- " + text
  {
    var t := "- " + text;
    assert Spaces(n) + "- " + text == Spaces(n) + t;
    assert t[|t| - 1] == text[|text| - 1];
    TrimPadded(Spaces(n), t);
  }

  lemma {:induction false} ItemNoNewline(n: nat, text: string)
    requires '\n' !in text
    ensures '\n' !in Spaces(n) + "- " + text
  {
    var line := Spaces(n) + "- " + text;
    forall i | 0 <= i < |line|
      ensures line[i] != '\n'
    {
      if i >= n + 2 {
        assert line[i] == text[i - n - 2];
      }
    }
  }

  /** The loop body on a `- ` line. */
  lemma {:induction false} StepItem(fs: seq<Frame>, line: string, v: string)
    requires |fs| > 0 && Trim(line) == "- " + v
    ensures Step(fs, line) == Item(fs, v)
  {
    var t := "- " + v;
    assert t[0] == '-' && t[..2] == "- " && t[2..] == v;
  }

  /** The stack after the items of an array: the parent of the open object
      holds the last item alone, under the open object's last key. */
  function AfterItems(fs: seq<Frame>, x: Value): seq<Frame>
    requires |fs| > 1
  {
    var parent := fs[|fs| - 2];
    fs[..|fs| - 2] + [parent.(fields := Put(parent.fields, LastKey(fs[|fs| - 1].fields), Arr([x]))), fs[|fs| - 1]]
  }

  /** A `- ` line under an open object that is not held under the object's
      last key: the parent gets the one-element array, the open object stays
      as it is. */
  lemma {:induction false} ItemKeeps(fs: seq<Frame>, v: string)
    requires |fs| > 1 && fs[|fs| - 1].attach != Some(LastKey(fs[|fs| - 1].fields))
    ensures var parent := fs[|fs| - 2];
      Item(fs, v) == Success(AfterItems(fs, ParseYamlValue(v)))
  {
  }

  /** Two items in a row leave the second. */
  lemma {:induction false} AfterItemsTwice(fs: seq<Frame>, a: Value, b: Value)
    requires |fs| > 1
    ensures AfterItems(AfterItems(fs, a), b) == AfterItems(fs, b)
  {
    var k := LastKey(fs[|fs| - 1].fields);
    PutPut(fs[|fs| - 2].fields, k, Arr([a]), Arr([b]));
  }

  /** The writer's line for a scalar item. */
  function ItemText(x: Value, n: nat): string {
    Spaces(n) + "- " + JsString(x)
  }

  /** The item lines of an array of scalars, one by one. */
  lemma {:induction false} ItemsAt(xs: seq<Value>, n: nat)
    requires ScalarItems(xs)
    ensures forall i :: 0 <= i < |xs| ==> YamlItems(xs, n)[i] == ItemText(xs[i], n)
    decreases |xs|
  {
    if |xs| > 0 {
      assert ScalarItems(xs[1..]) by {
        assert forall i :: 0 <= i < |xs| - 1 ==> xs[1..][i] == xs[i + 1];
      }
      ItemsAt(xs[1..], n);
      ItemsHead(xs, n);
      forall i | 1 <= i < |xs|
        ensures YamlItems(xs, n)[i] == ItemText(xs[i], n)
      {
        assert YamlItems(xs, n)[i] == YamlItems(xs[1..], n)[i - 1];
        assert xs[1..][i - 1] == xs[i];
      }
    }
  }

  /** The first item line, then the rest's. */
  lemma {:induction false} ItemsHead(xs: seq<Value>, n: nat)
    requires |xs| > 0 && YamlScalarOk(xs[0])
    ensures YamlItems(xs, n) == [ItemText(xs[0], n)] + YamlItems(xs[1..], n)
  {
  }

  /** A scalar item's line is a whole line starting, after the indentation,
      with `-`. */
  lemma {:induction false} ItemTextOk(x: Value, n: nat)
    requires YamlScalarOk(x)
    ensures LineOk(ItemText(x, n)) && ItemText(x, n)[n] == '-'
  {
    ScalarShape(x);
    ItemNoNewline(n, JsString(x));
    assert ItemText(x, n)[|ItemText(x, n)| - 1] == JsString(x)[|JsString(x)| - 1];
  }

  /** Reading the item lines of an array of scalars: every item replaces the
      one before, so only the last is left. */
  lemma {:induction false} ItemsRun(fs: seq<Frame>, xs: seq<Value>, n: nat)
    requires |fs| > 1 && fs[|fs| - 1].attach != Some(LastKey(fs[|fs| - 1].fields))
    requires |xs| > 0 && ScalarItems(xs)
    ensures Run(fs, YamlItems(xs, n)) == Success(AfterItems(fs, xs[|xs| - 1]))
    decreases |xs|
  {
    var ls := YamlItems(xs, n);
    ItemsAt(xs, n);
    assert ls[1..] == YamlItems(xs[1..], n);
    ItemLine(fs, n, xs[0]);
    ItemKeeps(fs, JsString(xs[0]));
    var fs1 := AfterItems(fs, xs[0]);
    assert Step(fs, ls[0]) == Success(fs1);
    if |xs| > 1 {
      assert ScalarItems(xs[1..]) by {
        assert forall i :: 0 <= i < |xs| - 1 ==> xs[1..][i] == xs[i + 1];
      }
      ItemsRun(fs1, xs[1..], n);
      assert xs[1..][|xs| - 2] == xs[|xs| - 1];
      AfterItemsTwice(fs, xs[0], xs[|xs| - 1]);
    }
  }

  /** The item lines of an array of scalars are whole lines, and at
      indentation 0 the first starts with `-`. */
  lemma {:induction false} ItemLinesOk(xs: seq<Value>, n: nat)
    requires |xs| > 0 && ScalarItems(xs)
    ensures forall i :: 0 <= i < |YamlItems(xs, n)| ==> LineOk(YamlItems(xs, n)[i])
    ensures n == 0 ==> YamlItems(xs, n)[0][0] == '-'
  {
    ItemsAt(xs, n);
    forall i | 0 <= i < |xs|
      ensures LineOk(YamlItems(xs, n)[i])
    {
      ItemTextOk(xs[i], n);
    }
    ItemTextOk(xs[0], n);
  }

  /** The writer's text for an array of scalars splits back into its item
      lines. */
  lemma {:induction false} ItemsText(xs: seq<Value>)
    requires |xs| > 0 && ScalarItems(xs)
    ensures Split(Trim(JsonToYaml(Arr(xs))), '\n') == YamlItems(xs, 0)
  {
    assert JsonToYaml(Arr(xs)) == Join(YamlItems(xs, 0), "\n");
    ItemLinesOk(xs, 0);
    LinesBack(YamlItems(xs, 0));
  }

  /** A top-level array of scalars is written as `- ` lines, and the first
      of them throws: nothing but the root is open to hold an item. */
  lemma {:induction false} RootArrayThrows(xs: seq<Value>)
    requires |xs| > 0 && ScalarItems(xs)
    ensures YamlToJson(JsonToYaml(Arr(xs))).Failure?
    ensures YamlToJson(JsonToYaml(Arr(xs))).error.TypeError?
  {
    var lines := YamlItems(xs, 0);
    ItemsText(xs);
    ItemsAt(xs, 0);
    ItemLine([Root], 0, xs[0]);
    assert Step([Root], lines[0]).Failure?;
    ReadFails(JsonToYaml(Arr(xs)), lines);
  }

  /** `yamlToJson` on a text one of whose lines throws. */
  lemma {:induction false} ReadFails(text: string, lines: seq<string>)
    requires Split(Trim(text), '\n') == lines && Run([Root], lines).Failure?
    ensures YamlToJson(text) == Failure(Run([Root], lines).error)
  {
  }

  /** An object with one array member of scalars, written and read back:
      the key keeps the empty object its `key:` line made, and the last item
      alone lands under `undefined`. */
  lemma {:induction false} ArrayMemberLost(key: string, xs: seq<Value>)
    requires IsKey(key) && key != "undefined" && |xs| > 0 && ScalarItems(xs)
    ensures YamlToJson(JsonToYaml(Obj([Entry(key, Arr(xs))])))
      == Success(Obj([Entry(key, Obj([])), Entry("undefined", Arr([xs[|xs| - 1]]))]))
  {
    var e := Entry(key, Arr(xs));
    var lines := MemberLines(e, 0);
    ArrayMemberText(key, xs);
    var fs1 := Opened([Root], key, 0);
    ArrayMemberRun(key, xs);
    var fs2 := AfterItems(fs1, xs[|xs| - 1]);
    ReadText(JsonToYaml(Obj([e])), lines);
    ArrayMemberClose(key, xs[|xs| - 1]);
  }

  /** The text of an object with one array member splits into the member's
      lines. */
  lemma {:induction false} ArrayMemberText(key: string, xs: seq<Value>)
    requires IsKey(key) && |xs| > 0 && ScalarItems(xs)
    ensures var e := Entry(key, Arr(xs));
      && MemberLines(e, 0) == [Spaces(0) + key + ":"] + YamlItems(xs, 2)
      && Split(Trim(JsonToYaml(Obj([e]))), '\n') == MemberLines(e, 0)
  {
    var e := Entry(key, Arr(xs));
    assert JsonToYaml(Obj([e])) == Join(MemberLines(e, 0), "\n") by {
      YamlLinesJoin([e], 0);
      assert YamlLines([e], 0) == MemberLines(e, 0);
    }
    ArrayLinesOk(key, xs);
    LinesBack(MemberLines(e, 0));
  }

  /** The lines of an object with one array member are whole lines, the
      first starting with the key. */
  lemma {:induction false} ArrayLinesOk(key: string, xs: seq<Value>)
    requires IsKey(key) && |xs| > 0 && ScalarItems(xs)
    ensures var lines := MemberLines(Entry(key, Arr(xs)), 0);
      && lines == [Spaces(0) + key + ":"] + YamlItems(xs, 2)
      && (forall i :: 0 <= i < |lines| ==> LineOk(lines[i]))
      && !IsSpace(lines[0][0])
  {
    ArrayMemberLines(key, xs);
    KeyHeadOk(key);
    ItemLinesOk(xs, 2);
    HeadLinesOk(Spaces(0) + key + ":", YamlItems(xs, 2));
  }

  /** An array member is written as its key line followed by its items. */
  lemma {:induction false} ArrayMemberLines(key: string, xs: seq<Value>)
    requires |xs| > 0 && ScalarItems(xs)
    ensures MemberLines(Entry(key, Arr(xs)), 0) == [Spaces(0) + key + ":"] + YamlItems(xs, 2)
  {
  }

  /** The key line of a member at the top level is a whole line that starts
      with the key. */
  lemma {:induction false} KeyHeadOk(key: string)
    requires IsKey(key)
    ensures LineOk(Spaces(0) + key + ":") && !IsSpace((Spaces(0) + key + ":")[0])
  {
    var head := Spaces(0) + key + ":";
    assert Spaces(0) == "";
    KeyNoNewline(key);
    assert head[0] == key[0] && IsWordChar(key[0]);
  }

  /** A whole line followed by whole lines. */
  lemma {:induction false} HeadLinesOk(head: string, rest: seq<string>)
    requires LineOk(head) && forall i :: 0 <= i < |rest| ==> LineOk(rest[i])
    ensures forall i :: 0 <= i < |[head] + rest| ==> LineOk(([head] + rest)[i])
  {
    var lines := [head] + rest;
    forall i | 0 <= i < |lines|
      ensures LineOk(lines[i])
    {
      if i > 0 {
        assert lines[i] == rest[i - 1];
      }
    }
  }

  lemma {:induction false} KeyNoNewline(key: string)
    requires IsKey(key)
    ensures '\n' !in Spaces(0) + key + ":"
  {
    var head := Spaces(0) + key + ":";
    forall i | 0 <= i < |head|
      ensures head[i] != '\n'
    {
      if i < |key| {
        assert head[i] == key[i] && IsWordChar(key[i]);
      }
    }
  }

  /** Reading the lines of an object with one array member from the root. */
  lemma {:induction false} ArrayMemberRun(key: string, xs: seq<Value>)
    requires IsKey(key) && key != "undefined" && |xs| > 0 && ScalarItems(xs)
    ensures var fs1 := Opened([Root], key, 0);
      |fs1| == 2 && Run([Root], MemberLines(Entry(key, Arr(xs)), 0)) == Success(AfterItems(fs1, xs[|xs| - 1]))
  {
    var lines := MemberLines(Entry(key, Arr(xs)), 0);
    var head := Spaces(0) + key + ":";
    assert lines == [head] + YamlItems(xs, 2);
    KeyStep([Root], 0, key, "");
    assert Trim("") == "";
    MemberOpens([Root], key, 0);
    var fs1 := Opened([Root], key, 0);
    assert Step([Root], head) == Success(fs1) by {
      assert head == Spaces(0) + key + ":" + "";
    }
    assert lines[1..] == YamlItems(xs, 2);
    assert Run([Root], lines) == Run(fs1, YamlItems(xs, 2));
    assert fs1[1] == Frame([], Some(key), 0);
    ItemsRun(fs1, xs, 2);
  }

  /** Closing the stack after the items: the open object goes back under its
      key unchanged, beside `undefined`. */
  lemma {:induction false} ArrayMemberClose(key: string, x: Value)
    requires key != "undefined"
    ensures CloseAll(AfterItems(Opened([Root], key, 0), x))
      == [Entry(key, Obj([])), Entry("undefined", Arr([x]))]
  {
    var fs1 := Opened([Root], key, 0);
    var f0 := [Entry(key, Obj([]))];
    assert fs1[0].fields == f0 by {
      assert Root.fields + f0 == f0;
    }
    assert Keys(f0) == [key];
    var f1 := f0 + [Entry("undefined", Arr([x]))];
    assert Put(f0, "undefined", Arr([x])) == f1;
    var fs2 := AfterItems(fs1, x);
    assert fs2 == [Root.(fields := f1), Frame([], Some(key), 0)];
    assert Keys(f1) == [key, "undefined"];
    assert IndexOfKey(f1, key) == 0;
    assert Put(f1, key, Obj([])) == f1;
    assert Pop(fs2) == [Root.(fields := f1)];
  }

  /** A `- ` line whose open object is held under the open object's own last
      key replaces that object in the parent, and from then on nothing the
      open object receives reaches the result. */
  lemma {:induction false} ItemDetaches(fs: seq<Frame>, v: string, g: seq<Entry>)
    requires |fs| > 1 && fs[|fs| - 1].attach == Some(LastKey(fs[|fs| - 1].fields))
    ensures Item(fs, v).Success?
    ensures var r := Item(fs, v).value;
      CloseAll(r[..|r| - 1] + [r[|r| - 1].(fields := g)]) == CloseAll(r[..|r| - 1])
  {
    var r := Item(fs, v).value;
    assert r[|r| - 1].attach == None;
    DetachedLost(r[..|r| - 1] + [r[|r| - 1].(fields := g)]);
    assert (r[..|r| - 1] + [r[|r| - 1].(fields := g)])[..|r| - 1] == r[..|r| - 1];
  }

  /** A detached object is dropped when it is popped: the result is what it
      would be without it. */
  lemma {:induction false} DetachedLost(fs: seq<Frame>)
    requires |fs| > 1 && fs[|fs| - 1].attach.None?
    ensures CloseAll(fs) == CloseAll(fs[..|fs| - 1])
  {
    assert Pop(fs) == fs[..|fs| - 1];
  }
}
