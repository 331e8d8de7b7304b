/** The YAML bridge: `yamlToJson`, a line-by-line reader for a small subset
    of YAML, and `jsonToYaml`, its writer.

    The reader keeps a stack of the objects still open, each with the
    indentation of the line that opened it. In `yamlToJson` the stack holds
    references into the result, so a later write to an open object shows up
    in the result. Here each open object is a `Frame` that remembers the key
    its parent holds it under, and it is written back into its parent when it
    is popped. The one write that replaces a parent's entry for an open
    object, the `- ` branch assigning to the key the open object is held
    under, detaches the frame: whatever is written to it afterwards is lost,
    as it is in `yamlToJson`. */
module Yaml {
  import opened Wrappers
  import opened Text
  import opened Numbers
  import opened Values
  import opened Scalars

  /** An open object: its members so far, the key its parent holds it under
      (`None` for the root and for a detached object), and the indentation of
      the line that opened it. */
  datatype Frame = Frame(fields: seq<Entry>, attach: Option<string>, indent: nat)

  /** `stack = [result]`, `indentStack = [0]` */
  const Root: Frame := Frame([], None, 0)

  /** The key `keys[keys.length - 1]` names: the last member's key, or the
      text `undefined` when the object has no member. */
  function LastKey(f: seq<Entry>): string {
    if |f| == 0 then "undefined" else f[|f| - 1].key
  }

  /** `stack.pop()`: the popped object, if still attached, takes its place in
      its parent under its key. */
  function Pop(fs: seq<Frame>): (r: seq<Frame>)
    requires |fs| > 1
    ensures |r| == |fs| - 1
    ensures r[..|r| - 1] == fs[..|fs| - 2]
    ensures r[|r| - 1].indent == fs[|fs| - 2].indent && r[|r| - 1].attach == fs[|fs| - 2].attach
  {
    var child := fs[|fs| - 1];
    var parent := fs[|fs| - 2];
    var parent' :=
      match child.attach
      case Some(k) => parent.(fields := Put(parent.fields, k, Obj(child.fields)))
      case None => parent;
    fs[..|fs| - 2] + [parent']
  }

  /** The pop loop before a member line at indentation `d`: pop while more
      than the root is open and `d` is at most the top's indentation. */
  function PopTo(fs: seq<Frame>, d: nat): (r: seq<Frame>)
    requires |fs| > 0
    ensures 0 < |r| <= |fs|
    ensures |r| == 1 || r[|r| - 1].indent < d
    decreases |fs|
  {
    if |fs| > 1 && d <= fs[|fs| - 1].indent then PopTo(Pop(fs), d) else fs
  }

  /** The result once every line is read: each open object is popped into
      its parent down to the root. */
  function CloseAll(fs: seq<Frame>): seq<Entry>
    requires |fs| > 0
    decreases |fs|
  {
    if |fs| == 1 then fs[0].fields else CloseAll(Pop(fs))
  }

  /** A `- value` line. `stack[stack.length - 1]` is always an object, since
      only objects are ever pushed, so the branch that pushes onto an array
      cannot run. The item goes to the parent of the open object, as a
      one-element array under the open object's last key; with only the root
      open, the parent is `stack[-1]`, which is undefined, and the
      assignment throws. */
  function Item(fs: seq<Frame>, value: string): (r: Result<seq<Frame>, Error>)
    requires |fs| > 0
    ensures r.Failure? <==> |fs| == 1
    ensures r.Failure? ==> r.error.TypeError?
    ensures r.Success? ==> |r.value| == |fs| && r.value[..|fs| - 2] == fs[..|fs| - 2]
    ensures r.Success? ==> r.value[|fs| - 1].fields == fs[|fs| - 1].fields
    ensures r.Success? ==> r.value[|fs| - 1].indent == fs[|fs| - 1].indent
    ensures r.Success? ==>
      r.value[|fs| - 2].fields == Put(fs[|fs| - 2].fields, LastKey(fs[|fs| - 1].fields), Arr([ParseYamlValue(value)]))
  {
    if |fs| == 1 then Failure(TypeError("Cannot set properties of undefined"))
    else
      var top := fs[|fs| - 1];
      var parent := fs[|fs| - 2];
      var k := LastKey(top.fields);
      var parent' := parent.(fields := Put(parent.fields, k, Arr([ParseYamlValue(value)])));
      var top' := if top.attach == Some(k) then top.(attach := None) else top;
      Success(fs[..|fs| - 2] + [parent', top'])
  }

  /** A `key: value` line, after the pop loop: an empty value puts an empty
      object under the key and opens it; any other value is read with
      `parseYamlValue`. */
  function Member(fs: seq<Frame>, key: string, value: string, indent: nat): (r: seq<Frame>)
    requires |fs| > 0
    ensures |r| == |fs| + (if value == "" then 1 else 0)
    ensures r[..|fs| - 1] == fs[..|fs| - 1]
    ensures r[|fs| - 1].indent == fs[|fs| - 1].indent && r[|fs| - 1].attach == fs[|fs| - 1].attach
    ensures value == "" ==> r[|fs| - 1].fields == Put(fs[|fs| - 1].fields, key, Obj([]))
    ensures value == "" ==> r[|fs|] == Frame([], Some(key), indent)
    ensures value != "" ==> r[|fs| - 1].fields == Put(fs[|fs| - 1].fields, key, ParseYamlValue(value))
  {
    var top := fs[|fs| - 1];
    if value == "" then
      fs[..|fs| - 1] + [top.(fields := Put(top.fields, key, Obj([]))), Frame([], Some(key), indent)]
    else
      fs[..|fs| - 1] + [top.(fields := Put(top.fields, key, ParseYamlValue(value)))]
  }

  /** A line the reader passes over: blank, or a `#` comment. */
  predicate Skipped(line: string) {
    var t := Trim(line);
    |t| == 0 || t[0] == '#'
  }

  /** One line of the loop body. A line that is neither skipped, an item nor
      a `key:` line with a colon after its first character changes nothing. */
  function Step(fs: seq<Frame>, line: string): (r: Result<seq<Frame>, Error>)
    requires |fs| > 0
    ensures r.Failure? <==> !Skipped(line) && StartsWith(Trim(line), "- ") && |fs| == 1
    ensures r.Success? ==> |r.value| > 0
  {
    var t := Trim(line);
    if |t| == 0 || t[0] == '#' then Success(fs)
    else if StartsWith(t, "- ") then Item(fs, t[2..])
    else
      var c := IndexOf(t, ':');
      if 0 < c < |t| then
        var d := Indent(line);
        Success(Member(PopTo(fs, d), Trim(t[..c]), Trim(t[c + 1..]), d))
      else Success(fs)
  }

  /** The loop over the lines: the first failure ends it. */
  function Run(fs: seq<Frame>, lines: seq<string>): (r: Result<seq<Frame>, Error>)
    requires |fs| > 0
    ensures r.Success? ==> |r.value| > 0
    ensures r.Failure? ==> r.error.TypeError?
    decreases |lines|
  {
    if |lines| == 0 then Success(fs)
    else
      match Step(fs, lines[0])
      case Failure(e) => Failure(e)
      case Success(fs') => Run(fs', lines[1..])
  }

  /** `yamlToJson(yaml)`: the lines of the trimmed text, read from the root;
      the result is always an object. */
  function YamlToJson(yaml: string): (r: Result<Value, Error>)
    ensures r.Success? ==> r.value.Obj?
    ensures r.Failure? ==> r.error.TypeError?
  {
    match Run([Root], Split(Trim(yaml), '\n'))
    case Failure(e) => Failure(e)
    case Success(fs) => Success(Obj(CloseAll(fs)))
  }

  // ---------------------------------------------------------------------
  // The writer.

  /** `jsonToYaml(obj, indent)`: an array as one `- item` line per element,
      an object as one `key: value` line per member, a container member as
      `key:` over its own text two spaces deeper, anything else as its text. */
  function ToYaml(v: Value, n: nat): string
    decreases v, 2
  {
    match v
    case Arr(xs) => Join(YamlItems(xs, n), "\n")
    case Obj(f) => Join(YamlMembers(f, n), "\n")
    case _ => Spaces(n) + JsString(v)
  }

  /** The `- ` lines of an array: a container element written two spaces
      deeper with its surrounding whitespace trimmed, anything else as its
      text. */
  function YamlItems(xs: seq<Value>, n: nat): (r: seq<string>)
    ensures |r| == |xs|
    decreases xs, 1
  {
    if |xs| == 0 then []
    else
      var x := xs[0];
      var text := if x.Arr? || x.Obj? then Trim(ToYaml(x, n + 2)) else JsString(x);
      [Spaces(n) + "- " + text] + YamlItems(xs[1..], n)
  }

  function YamlMembers(f: seq<Entry>, n: nat): (r: seq<string>)
    ensures |r| == |f|
    decreases f, 1
  {
    if |f| == 0 then [] else [YamlMember(f[0], n)] + YamlMembers(f[1..], n)
  }

  function YamlMember(e: Entry, n: nat): string
    decreases e, 0
  {
    if e.val.Arr? || e.val.Obj? then Spaces(n) + e.key + ":\n" + ToYaml(e.val, n + 2)
    else Spaces(n) + e.key + ": " + JsString(e.val)
  }

  /** `jsonToYaml(obj)` */
  function JsonToYaml(v: Value): string {
    ToYaml(v, 0)
  }
}
