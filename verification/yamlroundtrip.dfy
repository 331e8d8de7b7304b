/** When `yamlToJson(jsonToYaml(x))` gives `x` back: objects whose keys are
    words and whose members are scalars that read back as themselves or
    non-empty objects of the same kind, at any depth. An array never comes
    back, because the reader's `- ` branch does not build one where the
    writer put it. */
module YamlRoundTrip {
  import opened Wrappers
  import opened Text
  import opened Numbers
  import opened Values
  import opened Scalars
  import opened Yaml

  /** Text that `parseYamlValue` gives back as itself: not empty, no
      surrounding whitespace, no newline, not quoted, and not a literal. */
  predicate YamlTextOk(s: string) {
    |s| > 0 && NoSurroundingSpace(s) && '\n' !in s && !Quoted(s) && s != "~" && PlainString(s)
  }

  predicate YamlScalarOk(v: Value) {
    v.Null? || v.Bool? || (v.Num? && Normalized(v.n)) || (v.Str? && YamlTextOk(v.s))
  }

  /** A member that reads back as itself. */
  predicate MemberOk(v: Value)
    decreases v, 0
  {
    YamlScalarOk(v) || (v.Obj? && |v.fields| > 0 && YamlOk(v.fields))
  }

  /** An object that reads back as itself. */
  predicate YamlOk(f: seq<Entry>)
    decreases f, 1
  {
    UniqueKeys(f) && forall i :: 0 <= i < |f| ==> IsKey(f[i].key) && MemberOk(f[i].val)
  }

  // ---------------------------------------------------------------------
  // The writer's output line by line.

  function YamlLines(f: seq<Entry>, n: nat): seq<string>
    decreases f, 1
  {
    if |f| == 0 then [] else MemberLines(f[0], n) + YamlLines(f[1..], n)
  }

  /** The lines of one member: a container's `key:` line, then its own lines
      (one empty line for an empty container); a scalar's `key: text` line. */
  function MemberLines(e: Entry, n: nat): (r: seq<string>)
    ensures |r| > 0
    decreases e, 0
  {
    match e.val
    case Obj(g) => [Spaces(n) + e.key + ":"] + (if |g| == 0 then [""] else YamlLines(g, n + 2))
    case Arr(xs) => [Spaces(n) + e.key + ":"] + (if |xs| == 0 then [""] else YamlItems(xs, n + 2))
    case _ => [Spaces(n) + e.key + ": " + JsString(e.val)]
  }

  /** An object's text is its lines joined with newlines. */
  lemma {:induction false} YamlLinesJoin(f: seq<Entry>, n: nat)
    ensures ToYaml(Obj(f), n) == Join(YamlLines(f, n), "\n")
    ensures |YamlLines(f, n)| == 0 <==> |f| == 0
    decreases f, 1
  {
    if |f| > 0 {
      MemberJoin(f[0], n);
      YamlLinesJoin(f[1..], n);
      var a := [YamlMember(f[0], n)];
      var b := YamlMembers(f[1..], n);
      var c := MemberLines(f[0], n);
      var d := YamlLines(f[1..], n);
      assert YamlMembers(f, n) == a + b;
      if |f| > 1 {
        JoinAppend(a, b, "\n");
        JoinAppend(c, d, "\n");
      } else {
        assert a + b == a;
        assert c + d == c;
      }
    }
  }

  lemma {:induction false} MemberJoin(e: Entry, n: nat)
    ensures YamlMember(e, n) == Join(MemberLines(e, n), "\n")
    decreases e, 0
  {
    var head := Spaces(n) + e.key + ":";
    match e.val
    case Obj(g) =>
      if |g| > 0 {
        YamlLinesJoin(g, n + 2);
        JoinAppend([head], YamlLines(g, n + 2), "\n");
      }
      assert Spaces(n) + e.key + ":\n" == head + "\n";
    case Arr(xs) =>
      if |xs| > 0 {
        JoinAppend([head], YamlItems(xs, n + 2), "\n");
      }
      assert Spaces(n) + e.key + ":\n" == head + "\n";
    case _ =>
  }

  /** A line the reader can take whole: not empty, no newline, and not
      ending in whitespace. */
  predicate LineOk(l: string) {
    |l| > 0 && '\n' !in l && !IsSpace(l[|l| - 1])
  }

  /** The text of a readable scalar: not empty, no surrounding whitespace, no
      newline, and `parseYamlValue` gives the scalar back. */
  lemma {:induction false} ScalarText(v: Value)
    requires YamlScalarOk(v)
    ensures var t := JsString(v);
      |t| > 0 && NoSurroundingSpace(t) && '\n' !in t && ParseYamlValue(t) == v
  {
    ScalarShape(v);
    match v
    case Num(d) => NumberText(d);
    case Str(s) =>
    case _ =>
  }

  /** The text of a readable scalar is one word-like piece: not empty, no
      surrounding whitespace, no newline. */
  lemma {:induction false} ScalarShape(v: Value)
    requires YamlScalarOk(v)
    ensures var t := JsString(v);
      |t| > 0 && NoSurroundingSpace(t) && '\n' !in t
  {
    match v
    case Num(d) => NumberShape(d);
    case Str(s) =>
    case _ =>
  }

  /** A number's text is digits, a sign and a point. */
  lemma {:induction false} NumberShape(d: Decimal)
    requires Normalized(d)
    ensures var t := DecimalText(d);
      |t| > 0 && NoSurroundingSpace(t) && '\n' !in t
  {
    var t := DecimalText(d);
    forall i | 0 <= i < |t|
      ensures t[i] != '\n'
    {
      assert IsDigit(t[i]) || t[i] == '-' || t[i] == '.';
    }
  }

  /** A number's text reads back as the number. */
  lemma {:induction false} NumberText(d: Decimal)
    requires Normalized(d)
    ensures ParseYamlValue(DecimalText(d)) == Num(d)
  {
    NumberShape(d);
    LexDecimalText(d);
    TrimUnchanged(DecimalText(d));
    NumberYaml(DecimalText(d), d);
  }

  /** A text that lexes as a number and is not one of the words reads as
      that number. */
  lemma {:induction false} NumberYaml(t: string, d: Decimal)
    requires |t| > 0 && (t[0] == '-' || IsDigit(t[0])) && Trim(t) == t && LexNumber(t) == Some(d)
    ensures ParseYamlValue(t) == Num(d)
  {
    assert t != "null" && t != "~" && t != "true" && t != "false" by {
      assert t[0] != 'n' && t[0] != 't' && t[0] != 'f' && t[0] != '~';
    }
  }

  lemma {:induction false} LinesOk(f: seq<Entry>, n: nat)
    requires YamlOk(f)
    ensures forall i :: 0 <= i < |YamlLines(f, n)| ==> LineOk(YamlLines(f, n)[i])
    decreases f, 1
  {
    if |f| > 0 {
      YamlOkTail(f);
      MemberLinesOk(f[0], n);
      LinesOk(f[1..], n);
    }
  }

  lemma {:induction false} MemberLinesOk(e: Entry, n: nat)
    requires IsKey(e.key) && MemberOk(e.val)
    ensures forall i :: 0 <= i < |MemberLines(e, n)| ==> LineOk(MemberLines(e, n)[i])
    decreases e, 0
  {
    if e.val.Obj? {
      LinesOk(e.val.fields, n + 2);
      ObjectMemberLinesOk(e, n, YamlLines(e.val.fields, n + 2));
    } else {
      ScalarMemberLinesOk(e, n);
    }
  }

  /** The key line of a nested object, then its members' lines. */
  lemma {:induction false} ObjectMemberLinesOk(e: Entry, n: nat, inner: seq<string>)
    requires IsKey(e.key) && MemberOk(e.val) && e.val.Obj?
    requires inner == YamlLines(e.val.fields, n + 2)
    requires forall i :: 0 <= i < |inner| ==> LineOk(inner[i])
    ensures forall i :: 0 <= i < |MemberLines(e, n)| ==> LineOk(MemberLines(e, n)[i])
  {
    var head := Spaces(n) + e.key + ":";
    assert LineOk(head) by {
      assert forall i :: 0 <= i < |head| ==> head[i] != '\n';
    }
    assert MemberLines(e, n) == [head] + inner;
  }

  /** The one line of a scalar member. */
  lemma {:induction false} ScalarMemberLinesOk(e: Entry, n: nat)
    requires IsKey(e.key) && MemberOk(e.val) && !e.val.Obj?
    ensures forall i :: 0 <= i < |MemberLines(e, n)| ==> LineOk(MemberLines(e, n)[i])
  {
    ScalarShape(e.val);
    KeyPrefixOk(n, e.key);
    TextLineOk(Spaces(n) + e.key + ": ", JsString(e.val));
  }

  /** A key line's prefix holds no newline. */
  lemma {:induction false} KeyPrefixOk(n: nat, key: string)
    requires IsKey(key)
    ensures '\n' !in Spaces(n) + key + ": "
  {
    var p := Spaces(n) + key + ": ";
    assert forall i :: 0 <= i < |p| ==> p[i] != '\n';
  }

  /** A prefix and a text, neither with a newline, and the text not ending
      in whitespace, make a good line. */
  lemma {:induction false} TextLineOk(p: string, t: string)
    requires '\n' !in p && |t| > 0 && '\n' !in t && NoSurroundingSpace(t)
    ensures LineOk(p + t)
  {
    assert forall i :: 0 <= i < |p + t| ==> (p + t)[i] != '\n' by {
      forall i | 0 <= i < |p + t|
        ensures (p + t)[i] != '\n'
      {
        if i >= |p| {
          assert (p + t)[i] == t[i - |p|];
        } else {
          assert (p + t)[i] == p[i];
        }
      }
    }
    assert (p + t)[|p + t| - 1] == t[|t| - 1];
  }

  lemma {:induction false} YamlOkTail(f: seq<Entry>)
    requires YamlOk(f) && |f| > 0
    ensures YamlOk(f[1..]) && IsKey(f[0].key) && MemberOk(f[0].val)
    ensures Apart([f[0].key], f[1..])
  {
    assert forall i :: 0 <= i < |f| - 1 ==> f[1..][i] == f[i + 1];
  }

  // ---------------------------------------------------------------------
  // Reading the lines.

  /** The open objects with `f` added to the top one's members. */
  function Fill(fs: seq<Frame>, f: seq<Entry>): (r: seq<Frame>)
    requires |fs| > 0
    ensures |r| == |fs|
  {
    fs[..|fs| - 1] + [fs[|fs| - 1].(fields := fs[|fs| - 1].fields + f)]
  }

  /** A member line at indentation `n` writes to the top without popping. */
  predicate OpenAt(fs: seq<Frame>, n: nat) {
    |fs| > 0 && (|fs| == 1 || fs[|fs| - 1].indent < n)
  }

  /** Popping for a deeper line, then for a shallower one, is popping for
      the shallower one. */
  lemma {:induction false} PopToCompose(fs: seq<Frame>, d1: nat, d2: nat)
    requires |fs| > 0 && d1 <= d2
    ensures PopTo(PopTo(fs, d2), d1) == PopTo(fs, d1)
    decreases |fs|
  {
    if |fs| > 1 && d2 <= fs[|fs| - 1].indent {
      PopToCompose(Pop(fs), d1, d2);
    }
  }

  /** Popping early does not change the final result. */
  lemma {:induction false} CloseAllPopTo(fs: seq<Frame>, d: nat)
    requires |fs| > 0
    ensures CloseAll(PopTo(fs, d)) == CloseAll(fs)
    decreases |fs|
  {
    if |fs| > 1 && d <= fs[|fs| - 1].indent {
      CloseAllPopTo(Pop(fs), d);
    }
  }

  lemma {:induction false} RunAppend(fs: seq<Frame>, a: seq<string>, b: seq<string>)
    requires |fs| > 0
    ensures Run(fs, a).Success? ==> Run(fs, a + b) == Run(Run(fs, a).value, b)
    ensures Run(fs, a).Failure? ==> Run(fs, a + b) == Run(fs, a)
    decreases |a|
  {
    if |a| > 0 {
      assert (a + b)[0] == a[0];
      assert (a + b)[1..] == a[1..] + b;
      if Step(fs, a[0]).Success? {
        RunAppend(Step(fs, a[0]).value, a[1..], b);
      }
    } else {
      assert a + b == b;
    }
  }

  /** `key:` followed by `rest` at indentation `n`: the reader pops for `n`
      and then puts the trimmed rest under the key. */
  lemma {:induction false} KeyStep(fs: seq<Frame>, n: nat, key: string, rest: string)
    requires |fs| > 0 && IsKey(key) && (|rest| == 0 || !IsSpace(rest[|rest| - 1]))
    ensures Step(fs, Spaces(n) + key + ":" + rest) == Success(Member(PopTo(fs, n), key, Trim(rest), n))
  {
    var line := Spaces(n) + key + ":" + rest;
    KeyTrim(n, key, rest);
    KeyColon(key, rest);
    KeyIndent(n, key, rest);
    KeyParts(key, rest);
    StepMember(fs, line, |key|, key, Trim(rest), n);
  }

  /** The loop body on a line that is a `key: value` line. */
  lemma {:induction false} StepMember(fs: seq<Frame>, line: string, c: nat, key: string, value: string, d: nat)
    requires |fs| > 0
    requires var t := Trim(line);
      && |t| > 0 && t[0] != '#' && !StartsWith(t, "- ")
      && IndexOf(t, ':') == c && 0 < c < |t|
      && Trim(t[..c]) == key && Trim(t[c + 1..]) == value && Indent(line) == d
    ensures Step(fs, line) == Success(Member(PopTo(fs, d), key, value, d))
  {
  }

  /** The pieces of `key:rest` the reader takes apart. */
  lemma {:induction false} KeyParts(key: string, rest: string)
    requires IsKey(key)
    ensures var t := key + ":" + rest;
      && |t| > |key| && t[0] != '#' && !StartsWith(t, "- ")
      && Trim(t[..|key|]) == key && t[|key| + 1..] == rest
  {
    var t := key + ":" + rest;
    assert t[0] != '#' && !StartsWith(t, "- ") by {
      assert t[0] == key[0] && IsWordChar(key[0]);
    }
    assert Trim(t[..|key|]) == key by {
      assert t[..|key|] == key;
      TrimUnchanged(key);
    }
    assert t[|key| + 1..] == rest;
  }

  /** Trimming a key line leaves the key, the colon and the rest. */
  lemma {:induction false} KeyTrim(n: nat, key: string, rest: string)
    requires IsKey(key) && (|rest| == 0 || !IsSpace(rest[|rest| - 1]))
    ensures Trim(Spaces(n) + key + ":" + rest) == key + ":" + rest
  {
    var t := key + ":" + rest;
    assert t[0] == key[0] && IsWordChar(key[0]);
    assert t[|t| - 1] == if |rest| == 0 then ':' else rest[|rest| - 1];
    assert Spaces(n) + key + ":" + rest == Spaces(n) + t;
    TrimPadded(Spaces(n), t);
  }

  /** The first colon of a key line is the one after the key. */
  lemma {:induction false} KeyColon(key: string, rest: string)
    requires IsKey(key)
    ensures IndexOf(key + ":" + rest, ':') == |key|
  {
    var t := key + ":" + rest;
    assert t[|key|] == ':';
    assert t[..|key|] == key;
    forall i | 0 <= i < |key|
      ensures t[i] != ':'
    {
      assert t[i] == key[i] && IsWordChar(key[i]);
    }
  }

  /** A key line at `n` is indented by `n`. */
  lemma {:induction false} KeyIndent(n: nat, key: string, rest: string)
    requires IsKey(key)
    ensures Indent(Spaces(n) + key + ":" + rest) == n
  {
    var t := key + ":" + rest;
    assert t[0] == key[0] && IsWordChar(key[0]);
    assert Spaces(n) + key + ":" + rest == Spaces(n) + t;
    IndentOfPadded(n, t);
  }

  /** The first line of a readable member is a key line at `n`. */
  function HeadRest(e: Entry): string {
    if e.val.Obj? then "" else " " + JsString(e.val)
  }

  lemma {:induction false} MemberHead(e: Entry, n: nat)
    requires IsKey(e.key) && MemberOk(e.val)
    ensures MemberLines(e, n)[0] == Spaces(n) + e.key + ":" + HeadRest(e)
    ensures |HeadRest(e)| == 0 || !IsSpace(HeadRest(e)[|HeadRest(e)| - 1])
  {
    if e.val.Obj? {
      assert Spaces(n) + e.key + ":" + HeadRest(e) == Spaces(n) + e.key + ":";
    } else {
      ScalarHead(e, n);
    }
  }

  lemma {:induction false} ScalarHead(e: Entry, n: nat)
    requires YamlScalarOk(e.val)
    ensures MemberLines(e, n)[0] == Spaces(n) + e.key + ":" + HeadRest(e)
    ensures |HeadRest(e)| == 0 || !IsSpace(HeadRest(e)[|HeadRest(e)| - 1])
  {
    var t := JsString(e.val);
    ScalarShape(e.val);
    assert HeadRest(e)[|HeadRest(e)| - 1] == t[|t| - 1];
    assert Spaces(n) + e.key + ": " + t == Spaces(n) + e.key + ":" + (" " + t);
  }

  /** Lines that start with a member line at `n` read the same from a stack
      already popped for `n`. */
  lemma {:induction false} RunFromPopped(r: seq<Frame>, lines: seq<string>, e: Entry, n: nat)
    requires |r| > 0 && |lines| > 0 && IsKey(e.key) && MemberOk(e.val)
    requires lines[0] == MemberLines(e, n)[0]
    ensures Run(r, lines) == Run(PopTo(r, n), lines)
  {
    MemberHead(e, n);
    KeyStep(r, n, e.key, HeadRest(e));
    KeyStep(PopTo(r, n), n, e.key, HeadRest(e));
    PopToCompose(r, n, n);
  }

  /** Reading an object's lines into the open top adds its members. */
  lemma {:induction false} RunMembers(fs: seq<Frame>, f: seq<Entry>, n: nat)
    requires OpenAt(fs, n) && YamlOk(f) && Apart(Keys(fs[|fs| - 1].fields), f)
    ensures Run(fs, YamlLines(f, n)).Success?
    ensures PopTo(Run(fs, YamlLines(f, n)).value, n) == Fill(fs, f)
    decreases f, 4
  {
    if |f| == 0 {
      RunNone(fs, f, n);
    } else {
      RunSome(fs, f, n);
    }
  }

  lemma {:induction false} RunNone(fs: seq<Frame>, f: seq<Entry>, n: nat)
    requires OpenAt(fs, n) && |f| == 0
    ensures Run(fs, YamlLines(f, n)).Success?
    ensures PopTo(Run(fs, YamlLines(f, n)).value, n) == Fill(fs, f)
  {
    assert fs[|fs| - 1].fields + f == fs[|fs| - 1].fields;
    PopToOpen(fs, [], n);
  }

  /** The first member's lines, then the rest's. */
  lemma {:induction false} RunSome(fs: seq<Frame>, f: seq<Entry>, n: nat)
    requires OpenAt(fs, n) && YamlOk(f) && Apart(Keys(fs[|fs| - 1].fields), f) && |f| > 0
    ensures Run(fs, YamlLines(f, n)).Success?
    ensures PopTo(Run(fs, YamlLines(f, n)).value, n) == Fill(fs, f)
    decreases f, 3
  {
    YamlOkTail(f);
    assert f[0].key !in Keys(fs[|fs| - 1].fields);
    if |f| == 1 {
      RunOnly(fs, f, n);
    } else {
      RunFirst(fs, f, n);
    }
  }

  lemma {:induction false} RunOnly(fs: seq<Frame>, f: seq<Entry>, n: nat)
    requires OpenAt(fs, n) && |f| == 1 && IsKey(f[0].key) && MemberOk(f[0].val)
    requires f[0].key !in Keys(fs[|fs| - 1].fields)
    ensures Run(fs, YamlLines(f, n)).Success?
    ensures PopTo(Run(fs, YamlLines(f, n)).value, n) == Fill(fs, f)
    decreases f, 2
  {
    RunMember(fs, f[0], n);
    assert YamlLines(f, n) == MemberLines(f[0], n) by {
      assert YamlLines(f[1..], n) == [];
    }
    assert f == [f[0]];
  }

  lemma {:induction false} RunFirst(fs: seq<Frame>, f: seq<Entry>, n: nat)
    requires OpenAt(fs, n) && YamlOk(f) && Apart(Keys(fs[|fs| - 1].fields), f) && |f| > 1
    requires IsKey(f[0].key) && MemberOk(f[0].val) && f[0].key !in Keys(fs[|fs| - 1].fields)
    ensures Run(fs, YamlLines(f, n)).Success?
    ensures PopTo(Run(fs, YamlLines(f, n)).value, n) == Fill(fs, f)
    decreases f, 2
  {
    var a := MemberLines(f[0], n);
    var b := YamlLines(f[1..], n);
    RunMember(fs, f[0], n);
    RunRest(fs, f, n, Run(fs, a).value);
    RunThen(fs, a, b, n, Fill(fs, f));
  }

  /** Two runs one after the other are the run of both. */
  lemma {:induction false} RunThen(fs: seq<Frame>, a: seq<string>, b: seq<string>, n: nat, g: seq<Frame>)
    requires |fs| > 0 && Run(fs, a).Success? && Run(Run(fs, a).value, b).Success?
    requires PopTo(Run(Run(fs, a).value, b).value, n) == g
    ensures Run(fs, a + b).Success? && PopTo(Run(fs, a + b).value, n) == g
  {
    RunAppend(fs, a, b);
  }

  /** After the first member's lines, the rest read from a stack popped back
      to the top the first member went to. */
  lemma {:induction false} RunRest(fs: seq<Frame>, f: seq<Entry>, n: nat, r1: seq<Frame>)
    requires OpenAt(fs, n) && YamlOk(f) && Apart(Keys(fs[|fs| - 1].fields), f) && |f| > 1
    requires |r1| > 0 && PopTo(r1, n) == Fill(fs, [f[0]])
    ensures Run(r1, YamlLines(f[1..], n)).Success?
    ensures PopTo(Run(r1, YamlLines(f[1..], n)).value, n) == Fill(fs, f)
    decreases f, 1
  {
    var b := YamlLines(f[1..], n);
    YamlOkTail(f);
    YamlOkTail(f[1..]);
    assert b[0] == MemberLines(f[1], n)[0] by {
      assert f[1..][0] == f[1];
    }
    RunFromPopped(r1, b, f[1], n);
    FillNext(fs, f);
    PopToOpen(fs, [f[0]], n);
    RunMembers(Fill(fs, [f[0]]), f[1..], n);
  }

  /** After the first member the rest still go to the same open top. */
  lemma {:induction false} FillNext(fs: seq<Frame>, f: seq<Entry>)
    requires |fs| > 0 && |f| > 0 && UniqueKeys(f) && Apart(Keys(fs[|fs| - 1].fields), f)
    ensures var fs1 := Fill(fs, [f[0]]);
      fs1[|fs1| - 1].indent == fs[|fs| - 1].indent
      && Apart(Keys(fs1[|fs1| - 1].fields), f[1..])
      && Fill(fs1, f[1..]) == Fill(fs, f)
  {
    var top := fs[|fs| - 1];
    KeysAppend(top.fields, [f[0]]);
    assert forall i :: 0 <= i < |f| - 1 ==> f[1..][i] == f[i + 1];
    assert top.fields + [f[0]] + f[1..] == top.fields + f;
  }

  lemma {:induction false} RunMember(fs: seq<Frame>, e: Entry, n: nat)
    requires OpenAt(fs, n) && IsKey(e.key) && MemberOk(e.val) && e.key !in Keys(fs[|fs| - 1].fields)
    ensures Run(fs, MemberLines(e, n)).Success?
    ensures PopTo(Run(fs, MemberLines(e, n)).value, n) == Fill(fs, [e])
    decreases e, 1
  {
    if e.val.Obj? {
      NestedMember(fs, e, n);
    } else {
      ScalarMember(fs, e, n);
    }
  }

  /** A scalar member is one `key: text` line, which puts the scalar under
      the key. */
  lemma {:induction false} ScalarMember(fs: seq<Frame>, e: Entry, n: nat)
    requires OpenAt(fs, n) && IsKey(e.key) && MemberOk(e.val) && !e.val.Obj?
    requires e.key !in Keys(fs[|fs| - 1].fields)
    ensures Run(fs, MemberLines(e, n)).Success?
    ensures PopTo(Run(fs, MemberLines(e, n)).value, n) == Fill(fs, [e])
  {
    var t := JsString(e.val);
    var line := Spaces(n) + e.key + ":" + (" " + t);
    ScalarText(e.val);
    assert MemberLines(e, n) == [line] by {
      MemberHead(e, n);
    }
    KeyStep(fs, n, e.key, " " + t);
    TrimPadded(" ", t);
    PopToOpen(fs, [], n);
    MemberFills(fs, e.key, t);
    assert Step(fs, line) == Success(Fill(fs, [e]));
    RunOne(fs, line);
    PopToOpen(fs, [e], n);
  }

  lemma {:induction false} RunOne(fs: seq<Frame>, line: string)
    requires |fs| > 0
    ensures Run(fs, [line]) == Step(fs, line)
  {
    assert [line][1..] == [];
  }

  /** A member line at `n` on a stack open at `n` pops nothing, before or
      after members are added to the top. */
  lemma {:induction false} PopToOpen(fs: seq<Frame>, f: seq<Entry>, n: nat)
    requires OpenAt(fs, n)
    ensures PopTo(fs, n) == fs && OpenAt(Fill(fs, f), n) && PopTo(Fill(fs, f), n) == Fill(fs, f)
  {
  }

  /** A `key: value` line with a fresh key appends the member to the top. */
  lemma {:induction false} MemberFills(fs: seq<Frame>, key: string, value: string)
    requires |fs| > 0 && value != "" && key !in Keys(fs[|fs| - 1].fields)
    ensures forall n: nat :: Member(fs, key, value, n) == Fill(fs, [Entry(key, ParseYamlValue(value))])
  {
  }

  /** A `key:` line with a fresh key appends an empty object to the top and
      opens it. */
  lemma {:induction false} MemberOpens(fs: seq<Frame>, key: string, n: nat)
    requires |fs| > 0 && key !in Keys(fs[|fs| - 1].fields)
    ensures Member(fs, key, "", n) == Opened(fs, key, n)
  {
  }

  /** A nested object: its `key:` line opens it, its lines fill it, and the
      next pop for `n` puts it in place. */
  lemma {:induction false} NestedMember(fs: seq<Frame>, e: Entry, n: nat)
    requires OpenAt(fs, n) && IsKey(e.key) && MemberOk(e.val) && e.val.Obj?
    requires e.key !in Keys(fs[|fs| - 1].fields)
    ensures Run(fs, MemberLines(e, n)).Success?
    ensures PopTo(Run(fs, MemberLines(e, n)).value, n) == Fill(fs, [e])
    decreases e, 0
  {
    NestedLines(fs, e, n);
    NestedBody(fs, e.key, e.val.fields, n);
    assert e == Entry(e.key, Obj(e.val.fields));
  }

  /** A nested member's `key:` line opens it, and its members follow. */
  lemma {:induction false} NestedLines(fs: seq<Frame>, e: Entry, n: nat)
    requires OpenAt(fs, n) && IsKey(e.key) && MemberOk(e.val) && e.val.Obj?
    requires e.key !in Keys(fs[|fs| - 1].fields)
    ensures Run(fs, MemberLines(e, n)) == Run(Opened(fs, e.key, n), YamlLines(e.val.fields, n + 2))
  {
    OpenLine(fs, e, n);
    NestedTail(e, n);
    RunHead(fs, MemberLines(e, n), Opened(fs, e.key, n));
  }

  /** After its `key:` line, a nested member's lines are its members'. */
  lemma {:induction false} NestedTail(e: Entry, n: nat)
    requires e.val.Obj? && |e.val.fields| > 0
    ensures MemberLines(e, n)[1..] == YamlLines(e.val.fields, n + 2)
  {
    assert MemberLines(e, n) == [Spaces(n) + e.key + ":"] + YamlLines(e.val.fields, n + 2);
  }

  /** A first line that steps to `ts` leaves the rest to read from `ts`. */
  lemma {:induction false} RunHead(fs: seq<Frame>, lines: seq<string>, ts: seq<Frame>)
    requires |fs| > 0 && |lines| > 0 && Step(fs, lines[0]) == Success(ts)
    ensures Run(fs, lines) == Run(ts, lines[1..])
  {
  }

  /** The members of a nested object, read into the frame its `key:` line
      opened, fill it; popping back to the key's level puts it in place. */
  lemma {:induction false} NestedBody(fs: seq<Frame>, key: string, g: seq<Entry>, n: nat)
    requires OpenAt(fs, n) && IsKey(key) && YamlOk(g)
    requires key !in Keys(fs[|fs| - 1].fields)
    ensures Run(Opened(fs, key, n), YamlLines(g, n + 2)).Success?
    ensures PopTo(Run(Opened(fs, key, n), YamlLines(g, n + 2)).value, n) == Fill(fs, [Entry(key, Obj(g))])
    decreases g, 7
  {
    OpenedFresh(fs, key, n);
    OpenedFrame(fs, key, g, n);
    NestedFill(Opened(fs, key, n), g, n, Fill(fs, [Entry(key, Obj(g))]));
  }

  /** Members read into a frame opened empty, two deeper than `n`, give the
      stack that the filled frame pops to for `n`. */
  lemma {:induction false} NestedFill(ts: seq<Frame>, g: seq<Entry>, n: nat, want: seq<Frame>)
    requires OpenAt(ts, n + 2) && |ts[|ts| - 1].fields| == 0 && YamlOk(g)
    requires PopTo(Fill(ts, g), n) == want
    ensures Run(ts, YamlLines(g, n + 2)).Success?
    ensures PopTo(Run(ts, YamlLines(g, n + 2)).value, n) == want
    decreases g, 6
  {
    NestedRun(ts, g, n + 2);
    PopToCompose(Run(ts, YamlLines(g, n + 2)).value, n, n + 2);
  }

  /** The members read into a frame opened empty fill it. */
  lemma {:induction false} NestedRun(ts: seq<Frame>, g: seq<Entry>, m: nat)
    requires OpenAt(ts, m) && |ts[|ts| - 1].fields| == 0 && YamlOk(g)
    ensures Run(ts, YamlLines(g, m)).Success?
    ensures PopTo(Run(ts, YamlLines(g, m)).value, m) == Fill(ts, g)
    decreases g, 5
  {
    assert Apart(Keys(ts[|ts| - 1].fields), g) by {
      assert Keys(ts[|ts| - 1].fields) == [];
    }
    RunMembers(ts, g, m);
  }

  /** The frame a `key:` line opens is empty and deeper than the key. */
  lemma {:induction false} OpenedFresh(fs: seq<Frame>, key: string, n: nat)
    requires |fs| > 0
    ensures OpenAt(Opened(fs, key, n), n + 2) && |Opened(fs, key, n)[|Opened(fs, key, n)| - 1].fields| == 0
  {
    assert Opened(fs, key, n)[|fs|] == Frame([], Some(key), n);
  }

  /** Once the frame a `key:` line opened is filled, popping back to the
      key's level puts the object in place. */
  lemma {:induction false} OpenedFrame(fs: seq<Frame>, key: string, g: seq<Entry>, n: nat)
    requires OpenAt(fs, n) && key !in Keys(fs[|fs| - 1].fields)
    ensures PopTo(Fill(Opened(fs, key, n), g), n) == Fill(fs, [Entry(key, Obj(g))])
  {
    Closed(fs, Entry(key, Obj(g)), n);
  }

  /** The stack after the `key:` line of a nested object: an empty object
      under the key, and a frame opened for it. */
  function Opened(fs: seq<Frame>, key: string, n: nat): seq<Frame>
    requires |fs| > 0
  {
    Fill(fs, [Entry(key, Obj([]))]) + [Frame([], Some(key), n)]
  }

  /** The `key:` line of a nested object opens it. */
  lemma {:induction false} OpenLine(fs: seq<Frame>, e: Entry, n: nat)
    requires OpenAt(fs, n) && IsKey(e.key) && e.val.Obj?
    requires e.key !in Keys(fs[|fs| - 1].fields)
    ensures Step(fs, MemberLines(e, n)[0]) == Success(Opened(fs, e.key, n))
  {
    assert MemberLines(e, n)[0] == Spaces(n) + e.key + ":" + "";
    KeyStep(fs, n, e.key, "");
    assert Trim("") == "";
    PopToOpen(fs, [], n);
    MemberOpens(fs, e.key, n);
  }

  /** Closing the filled nested object puts it in place of its empty
      placeholder. */
  lemma {:induction false} Closed(fs: seq<Frame>, e: Entry, n: nat)
    requires OpenAt(fs, n) && e.val.Obj? && e.key !in Keys(fs[|fs| - 1].fields)
    ensures PopTo(Fill(Opened(fs, e.key, n), e.val.fields), n) == Fill(fs, [e])
  {
    var fs1 := Opened(fs, e.key, n);
    var fs2 := Fill(fs1, e.val.fields);
    var top := fs[|fs| - 1];
    assert fs2[|fs2| - 1] == Frame(e.val.fields, Some(e.key), n);
    assert fs2[|fs2| - 2] == top.(fields := top.fields + [Entry(e.key, Obj([]))]);
    PutLast(top.fields, e.key, Obj([]), e.val);
    assert Pop(fs2) == Fill(fs, [e]);
  }

  /** Assigning to the key of the last entry, fresh before it, replaces
      that entry. */
  lemma {:induction false} PutLast(a: seq<Entry>, k: string, x: Value, y: Value)
    requires k !in Keys(a)
    ensures Put(a + [Entry(k, x)], k, y) == a + [Entry(k, y)]
  {
    LastKeyIndex(a, k, x);
    UpdateLast(a, Entry(k, x), Entry(k, y));
  }

  lemma {:induction false} LastKeyIndex(a: seq<Entry>, k: string, x: Value)
    requires k !in Keys(a)
    ensures k in Keys(a + [Entry(k, x)]) && IndexOfKey(a + [Entry(k, x)], k) == |a|
  {
    var f := a + [Entry(k, x)];
    KeysAppend(a, [Entry(k, x)]);
    assert Keys(f)[|a|] == k;
    forall j | 0 <= j < |a|
      ensures f[j].key != k
    {
      assert f[j].key == Keys(a)[j];
    }
  }

  lemma {:induction false} UpdateLast(a: seq<Entry>, e: Entry, e': Entry)
    ensures (a + [e])[|a| := e'] == a + [e']
  {
  }

  /** The YAML round trip: a readable object, written by `jsonToYaml`, reads
      back as itself. */
  lemma {:induction false} YamlRoundTrip(f: seq<Entry>)
    requires YamlOk(f)
    ensures YamlToJson(JsonToYaml(Obj(f))) == Success(Obj(f))
  {
    if |f| == 0 {
      EmptyRoundTrip();
    } else {
      TextLines(f);
      ReadLines(f);
      ReadText(JsonToYaml(Obj(f)), YamlLines(f, 0));
    }
  }

  /** The empty object is written as the empty text, which reads as one
      blank line. */
  lemma {:induction false} EmptyRoundTrip()
    ensures YamlToJson(JsonToYaml(Obj([]))) == Success(Obj([]))
  {
    EmptyText();
    EmptyRun();
    ReadText(JsonToYaml(Obj([])), [""]);
  }

  /** The empty object's text is empty, which splits into one blank line. */
  lemma {:induction false} EmptyText()
    ensures Split(Trim(JsonToYaml(Obj([]))), '\n') == [""]
  {
    assert YamlMembers([], 0) == [];
    assert JsonToYaml(Obj([])) == "";
    assert Trim("") == "";
  }

  /** A blank line leaves the stack alone. */
  lemma {:induction false} EmptyRun()
    ensures Run([Root], [""]) == Success([Root])
  {
    StepBlank([Root], "");
    RunOne([Root], "");
  }

  /** A blank line is passed over. */
  lemma {:induction false} StepBlank(fs: seq<Frame>, line: string)
    requires |fs| > 0 && AllSpaces(line)
    ensures Step(fs, line) == Success(fs)
  {
    assert |Trim(line)| == 0;
  }

  /** `yamlToJson` on a text whose lines read without failing. */
  lemma {:induction false} ReadText(text: string, lines: seq<string>)
    requires Split(Trim(text), '\n') == lines && Run([Root], lines).Success?
    ensures YamlToJson(text) == Success(Obj(CloseAll(Run([Root], lines).value)))
  {
  }

  /** Whole lines joined with newlines, the first starting with a
      non-space: `trim` leaves the text alone and splitting it at newlines
      gives the lines back. */
  lemma {:induction false} LinesBack(lines: seq<string>)
    requires |lines| > 0 && (forall i :: 0 <= i < |lines| ==> LineOk(lines[i])) && |lines[0]| > 0 && !IsSpace(lines[0][0])
    ensures Split(Trim(Join(lines, "\n")), '\n') == lines
  {
    assert forall i :: 0 <= i < |lines| ==> '\n' !in lines[i];
    JoinEnds(lines, "\n");
    TrimUnchanged(Join(lines, "\n"));
    SplitJoin(lines, '\n');
  }

  /** The reader splits the writer's text of a non-empty readable object back
      into its lines. */
  lemma {:induction false} TextLines(f: seq<Entry>)
    requires YamlOk(f) && |f| > 0
    ensures Split(Trim(JsonToYaml(Obj(f))), '\n') == YamlLines(f, 0)
  {
    YamlLinesJoin(f, 0);
    WholeText(f);
    SplitJoin(YamlLines(f, 0), '\n');
  }

  /** Read from the root, the lines of a non-empty readable object close to
      the object. */
  lemma {:induction false} ReadLines(f: seq<Entry>)
    requires YamlOk(f) && |f| > 0
    ensures Run([Root], YamlLines(f, 0)).Success?
    ensures CloseAll(Run([Root], YamlLines(f, 0)).value) == f
  {
    assert Keys([]) == [];
    RunMembers([Root], f, 0);
    var r := Run([Root], YamlLines(f, 0)).value;
    CloseAllPopTo(r, 0);
    assert Fill([Root], f) == [Root.(fields := f)] by {
      assert [Root][..0] == [];
      assert Root.fields + f == f;
    }
  }

  /** The writer's text for a non-empty readable object is its lines, with
      nothing for `trim` to remove. */
  lemma {:induction false} WholeText(f: seq<Entry>)
    requires YamlOk(f) && |f| > 0
    ensures Trim(Join(YamlLines(f, 0), "\n")) == Join(YamlLines(f, 0), "\n")
    ensures forall i :: 0 <= i < |YamlLines(f, 0)| ==> '\n' !in YamlLines(f, 0)[i]
  {
    var lines := YamlLines(f, 0);
    YamlOkTail(f);
    LinesOk(f, 0);
    MemberHead(f[0], 0);
    assert lines[0] == MemberLines(f[0], 0)[0];
    assert lines[0][0] == f[0].key[0];
    JoinedLinesTrimmed(lines);
  }

  /** Good lines, the first starting with a non-space, join into a text
      that `trim` leaves alone. */
  lemma {:induction false} JoinedLinesTrimmed(lines: seq<string>)
    requires |lines| > 0 && |lines[0]| > 0 && !IsSpace(lines[0][0])
    requires forall i :: 0 <= i < |lines| ==> LineOk(lines[i])
    ensures Trim(Join(lines, "\n")) == Join(lines, "\n")
    ensures forall i :: 0 <= i < |lines| ==> '\n' !in lines[i]
  {
    assert LineOk(lines[|lines| - 1]);
    JoinEnds(lines, "\n");
    TrimUnchanged(Join(lines, "\n"));
  }
}
