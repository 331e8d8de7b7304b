/** The XML bridge: `jsonToXml` with its helper `objectToXml`, which write
    markup without escaping anything, and `parseXmlNode`, which reads an
    element tree back into a value. The tree itself comes from the browser's
    `DOMParser`, which is not part of this model: `XmlToJson` takes its
    outcome as a parameter. */
module Xml {
  import opened Wrappers
  import opened Text
  import opened Numbers
  import opened Values

  /** The declaration line `jsonToXml` starts with. */
  const Declaration: string := "<?xml version=\"1.0\" encoding=\"UTF-8\"?>\n"

  /** The key whose value holds an element's attributes. */
  const AttributesKey: string := "@attributes"

  /** The tag name `xmlToJson` looks for to detect a parse error. */
  const ParserErrorTag: string := "parsererror"

  // ---------------------------------------------------------------------
  // The serialiser.

  datatype Attr = Attr(name: string, value: string)

  /** ` k="v"` */
  function AttrPair(k: string, v: string): string {
    " " + k + "=\"" + v + "\""
  }

  /** `Object.entries(attrObj)`, each value as `${v}` prints it: an
      object's entries, an array's or a string's indices, and nothing for a
      number or a boolean. `Object.entries` of null throws, which `ThrowsIn`
      accounts for. */
  function AttrList(a: Value): (r: seq<Attr>)
    requires !Nullish(a)
  {
    match a
    case Obj(g) => seq(|g|, i requires 0 <= i < |g| => Attr(g[i].key, JsString(g[i].val)))
    case Arr(xs) => seq(|xs|, i requires 0 <= i < |xs| => Attr(NatText(i), JsString(xs[i])))
    case Str(s) => seq(|s|, i requires 0 <= i < |s| => Attr(NatText(i), [s[i]]))
    case _ => []
  }

  /** `.map(([k, v]) => ` ${k}="${v}"`).join('')` */
  function AttrMarkup(attrs: seq<Attr>): string {
    if |attrs| == 0 then "" else AttrPair(attrs[0].name, attrs[0].value) + AttrMarkup(attrs[1..])
  }

  /** The markup of `value.map(item => objectToXml(item, key)).join('\n')`. */
  function Items(xs: seq<Value>, tag: string): (r: seq<string>)
    ensures |r| == |xs|
    decreases xs, 0
  {
    if |xs| == 0 then [] else [ObjectToXml(xs[0], tag)] + Items(xs[1..], tag)
  }

  /** `objectToXml(obj, tagName)` for a value whose attributes do not throw:
      an array becomes its items, each named `item`, one per line; an
      object becomes an element around its children, or an empty element;
      any other value becomes `<tag>text</tag>`. */
  function ObjectToXml(v: Value, tag: string): string
    decreases v, 2
  {
    match v
    case Arr(xs) => Join(Items(xs, "item"), "\n")
    case Obj(f) =>
      var attrs := Attrs(f);
      var children := Children(f);
      if children != "" then "<" + tag + attrs + ">\n" + children + "\n</" + tag + ">"
      else "<" + tag + attrs + "/>"
    case _ => "<" + tag + ">" + JsString(v) + "</" + tag + ">"
  }

  /** The attributes of the `@attributes` entry, if there is one. */
  function ElementAttrs(f: seq<Entry>): seq<Attr> {
    match Lookup(f, AttributesKey)
    case Some(a) => if Nullish(a) then [] else AttrList(a)
    case None => []
  }

  function Attrs(f: seq<Entry>): string {
    AttrMarkup(ElementAttrs(f))
  }

  /** The children text: every entry other than `@attributes`, in order,
      with nothing between them. */
  function Children(f: seq<Entry>): string
    decreases f, 1
  {
    if |f| == 0 then "" else Child(f[0]) + Children(f[1..])
  }

  /** One entry's markup: an array's items named after the key, one per
      line; an object as a nested element; anything else, null included, as
      `<key>text</key>`. */
  function Child(e: Entry): string
    decreases e, 0
  {
    if e.key == AttributesKey then ""
    else
      match e.val
      case Arr(xs) => Join(Items(xs, e.key), "\n")
      case Obj(_) => ObjectToXml(e.val, e.key)
      case _ => "<" + e.key + ">" + JsString(e.val) + "</" + e.key + ">"
  }

  /** Some object the serialiser visits has a null `@attributes`, on which
      `Object.entries` throws. */
  predicate ThrowsIn(v: Value)
    decreases v, 1
  {
    match v
    case Arr(xs) => ItemsThrow(xs)
    case Obj(f) => EntriesThrow(f)
    case _ => false
  }

  predicate ItemsThrow(xs: seq<Value>)
    decreases xs, 0
  {
    |xs| > 0 && (ThrowsIn(xs[0]) || ItemsThrow(xs[1..]))
  }

  predicate EntriesThrow(f: seq<Entry>)
    decreases f, 0
  {
    |f| > 0 && (EntryThrows(f[0]) || EntriesThrow(f[1..]))
  }

  predicate EntryThrows(e: Entry)
    decreases e, 2
  {
    if e.key == AttributesKey then Nullish(e.val)
    else ThrowsIn(e.val)
  }

  /** `jsonToXml(obj)`: the declaration, then the markup of the value under
      the tag `root`. */
  function JsonToXml(v: Value): (r: Result<string, Error>)
    ensures r.Failure? <==> ThrowsIn(v)
    ensures r.Failure? ==> r.error.TypeError?
    ensures r.Success? ==> |r.value| >= |Declaration| && r.value[..|Declaration|] == Declaration
  {
    if ThrowsIn(v) then Failure(TypeError("Cannot convert undefined or null to object"))
    else
      var r := Declaration + ObjectToXml(v, "root");
      assert r[..|Declaration|] == Declaration;
      Success(r)
  }

  // ---------------------------------------------------------------------
  // The element tree and `parseXmlNode`.

  /** A node of the tree `DOMParser` builds: an element, a text, or any
      other node (a comment, a CDATA section), which `parseXmlNode` passes
      over but which still counts among an element's child nodes. */
  datatype XmlNode =
    | Element(name: string, attrs: seq<Attr>, children: seq<XmlNode>)
    | TextNode(text: string)
    | OtherNode(markup: string)

  /** The children of one name, in document order. */
  datatype Group = Group(name: string, values: seq<Value>)

  /** `children[childName].push(value)`, creating the list when the name is
      new; the lists keep the order in which names first appear. */
  function AddTo(gs: seq<Group>, name: string, v: Value): (r: seq<Group>)
    ensures |r| >= |gs|
  {
    if |gs| == 0 then [Group(name, [v])]
    else if gs[0].name == name then [gs[0].(values := gs[0].values + [v])] + gs[1..]
    else [gs[0]] + AddTo(gs[1..], name, v)
  }

  /** `parseXmlNode(node)`: an element whose only child node is a text is
      that text; any other element is an object of its attributes under
      `@attributes`, if it has any, then one entry per child element name,
      a single child as its value and several as an array. */
  function ParseXmlNode(n: XmlNode): (r: Value)
    requires n.Element?
    ensures r.Str? || r.Obj?
    decreases n, 1
  {
    if |n.children| == 1 && n.children[0].TextNode? then Str(n.children[0].text)
    else
      var base := if |n.attrs| > 0 then [Entry(AttributesKey, Obj(AttrEntries(n.attrs)))] else [];
      Obj(PutGroups(base, GroupsFrom([], n.children)))
  }

  /** The child loop: element children are parsed and grouped by tag
      name; text and other nodes are skipped. */
  function GroupsFrom(acc: seq<Group>, cs: seq<XmlNode>): seq<Group>
    decreases cs, 0
  {
    if |cs| == 0 then acc
    else if cs[0].Element? then GroupsFrom(AddTo(acc, cs[0].name, ParseXmlNode(cs[0])), cs[1..])
    else GroupsFrom(acc, cs[1..])
  }

  /** `result['@attributes'][attr.name] = attr.value` for each attribute. */
  function AttrEntries(attrs: seq<Attr>): seq<Entry>
    decreases |attrs|
  {
    if |attrs| == 0 then []
    else Put(AttrEntries(attrs[..|attrs| - 1]), attrs[|attrs| - 1].name, Str(attrs[|attrs| - 1].value))
  }

  /** `result[key] = value.length === 1 ? value[0] : value` for each group. */
  function PutGroups(acc: seq<Entry>, gs: seq<Group>): seq<Entry>
    decreases |gs|
  {
    if |gs| == 0 then acc
    else PutGroups(Put(acc, gs[0].name, GroupValue(gs[0])), gs[1..])
  }

  function GroupValue(g: Group): Value {
    if |g.values| == 1 then g.values[0] else Arr(g.values)
  }

  /** `getElementsByTagName(name).length > 0`: the node is an element named
      `name`, or one of its descendants is. */
  predicate HasElement(n: XmlNode, name: string)
    decreases n, 1
  {
    n.Element? && (n.name == name || AnyHasElement(n.children, name))
  }

  /** Some node of `ns` is or holds an element named `name`. */
  predicate AnyHasElement(ns: seq<XmlNode>, name: string)
    decreases ns, 0
  {
    |ns| > 0 && (HasElement(ns[0], name) || AnyHasElement(ns[1..], name))
  }

  /** `xmlToJson(xml)`, given what `DOMParser` made of the text: nothing
      when the text does not parse, else the document element. Even a tree
      that parsed is rejected when any of its elements is named
      `parsererror`, because that is the test for a parse error. */
  function XmlToJson(doc: Option<XmlNode>): (r: Result<Value, Error>)
    requires doc.Some? ==> doc.value.Element?
    ensures r.Failure? <==> doc.None? || HasElement(doc.value, ParserErrorTag)
    ensures r.Failure? ==> r.error == InvalidXml
    ensures r.Success? ==> r.value.Str? || r.value.Obj?
  {
    match doc
    case None => Failure(InvalidXml)
    case Some(root) =>
      if HasElement(root, ParserErrorTag) then Failure(InvalidXml) else Success(ParseXmlNode(root))
  }

  /** Well-formed XML is still rejected when it holds an element named
      `parsererror`: `<root><parsererror>x</parsererror></root>`. */
  lemma {:induction false} ParserErrorElementRejected()
    ensures XmlToJson(Some(Element("root", [], [Element(ParserErrorTag, [], [TextNode("x")])]))) == Failure(InvalidXml)
  {
    var inner := Element(ParserErrorTag, [], [TextNode("x")]);
    assert HasElement(inner, ParserErrorTag);
    assert AnyHasElement([inner], ParserErrorTag);
  }

  // ---------------------------------------------------------------------
  // The tree the serialiser writes.

  /** The markup of a node: an element without children closes itself. */
  function Markup(n: XmlNode): string
    decreases n, 1
  {
    match n
    case Element(name, attrs, cs) =>
      if |cs| == 0 then "<" + name + AttrMarkup(attrs) + "/>"
      else "<" + name + AttrMarkup(attrs) + ">" + MarkupAll(cs) + "</" + name + ">"
    case TextNode(t) => t
    case OtherNode(m) => m
  }

  function MarkupAll(ns: seq<XmlNode>): string
    decreases ns, 0
  {
    if |ns| == 0 then "" else Markup(ns[0]) + MarkupAll(ns[1..])
  }

  /** Forests one per line: a newline text between neighbours. */
  function Lines(parts: seq<seq<XmlNode>>): seq<XmlNode> {
    if |parts| == 0 then []
    else if |parts| == 1 then parts[0]
    else parts[0] + [TextNode("\n")] + Lines(parts[1..])
  }

  /** The nodes `objectToXml(v, tag)` writes: the items of an array, one
      element for anything else. */
  function Nodes(v: Value, tag: string): seq<XmlNode>
    decreases v, 2
  {
    match v
    case Arr(xs) => Lines(ItemNodes(xs, "item"))
    case Obj(f) =>
      var cs := ChildNodes(f);
      [Element(tag, ElementAttrs(f), if MarkupAll(cs) != "" then [TextNode("\n")] + cs + [TextNode("\n")] else [])]
    case _ => [Element(tag, [], [TextNode(JsString(v))])]
  }

  function ItemNodes(xs: seq<Value>, tag: string): (r: seq<seq<XmlNode>>)
    ensures |r| == |xs|
    decreases xs, 0
  {
    if |xs| == 0 then [] else [Nodes(xs[0], tag)] + ItemNodes(xs[1..], tag)
  }

  function ChildNodes(f: seq<Entry>): seq<XmlNode>
    decreases f, 1
  {
    if |f| == 0 then [] else EntryNodes(f[0]) + ChildNodes(f[1..])
  }

  function EntryNodes(e: Entry): seq<XmlNode>
    decreases e, 0
  {
    if e.key == AttributesKey then []
    else
      match e.val
      case Arr(xs) => Lines(ItemNodes(xs, e.key))
      case Obj(_) => Nodes(e.val, e.key)
      case _ => [Element(e.key, [], [TextNode(JsString(e.val))])]
  }

  lemma {:induction false} MarkupAppend(a: seq<XmlNode>, b: seq<XmlNode>)
    ensures MarkupAll(a + b) == MarkupAll(a) + MarkupAll(b)
    decreases |a|
  {
    if |a| > 0 {
      assert (a + b)[1..] == a[1..] + b;
      MarkupAppend(a[1..], b);
    } else {
      assert a + b == b;
    }
  }

  /** The markup of forests one per line is their markups joined with
      newlines. */
  lemma {:induction false} LinesMarkup(parts: seq<seq<XmlNode>>)
    ensures MarkupAll(Lines(parts)) == Join(seq(|parts|, i requires 0 <= i < |parts| => MarkupAll(parts[i])), "\n")
    decreases |parts|
  {
    var ms := seq(|parts|, i requires 0 <= i < |parts| => MarkupAll(parts[i]));
    if |parts| > 1 {
      LinesMarkup(parts[1..]);
      MarkupAppend(parts[0] + [TextNode("\n")], Lines(parts[1..]));
      MarkupAppend(parts[0], [TextNode("\n")]);
      assert ms[1..] == seq(|parts| - 1, i requires 0 <= i < |parts| - 1 => MarkupAll(parts[1..][i]));
    }
  }

  /** `objectToXml(v, tag)` writes the markup of the tree `Nodes(v, tag)`. */
  lemma {:induction false} WriterMarkup(v: Value, tag: string)
    ensures ObjectToXml(v, tag) == MarkupAll(Nodes(v, tag))
    decreases v, 2
  {
    match v
    case Arr(xs) =>
      ItemsMarkup(xs, "item");
      LinesMarkup(ItemNodes(xs, "item"));
    case Obj(f) =>
      ChildrenMarkup(f);
      ElementMarkup(f, tag);
    case _ =>
      TextElementMarkup(tag, JsString(v));
  }

  /** An object's element, given that its children text is the markup of its
      child nodes. */
  lemma {:induction false} ElementMarkup(f: seq<Entry>, tag: string)
    requires Children(f) == MarkupAll(ChildNodes(f))
    ensures ObjectToXml(Obj(f), tag) == MarkupAll(Nodes(Obj(f), tag))
  {
    var cs := ChildNodes(f);
    var n := Nodes(Obj(f), tag)[0];
    assert MarkupAll(Nodes(Obj(f), tag)) == Markup(n);
    if MarkupAll(cs) != "" {
      WrappedMarkup(cs);
      Enclosed("<" + tag + Attrs(f), MarkupAll(cs), tag);
    }
  }

  /** The element's text around its children, regrouped. */
  lemma {:induction false} Enclosed(open: string, c: string, tag: string)
    ensures open + ">" + ("\n" + c + "\n") + "</" + tag + ">" == open + ">\n" + c + "\n</" + tag + ">"
  {
    assert ">\n" == ">" + "\n";
    assert "\n</" == "\n" + "</";
  }

  /** Children between two newline texts. */
  lemma {:induction false} WrappedMarkup(cs: seq<XmlNode>)
    ensures MarkupAll([TextNode("\n")] + cs + [TextNode("\n")]) == "\n" + MarkupAll(cs) + "\n"
  {
    MarkupAppend([TextNode("\n")] + cs, [TextNode("\n")]);
    MarkupAppend([TextNode("\n")], cs);
  }

  lemma {:induction false} TextElementMarkup(tag: string, t: string)
    ensures MarkupAll([Element(tag, [], [TextNode(t)])]) == "<" + tag + ">" + t + "</" + tag + ">"
  {
    assert MarkupAll([TextNode(t)]) == t;
  }

  lemma {:induction false} ItemsMarkup(xs: seq<Value>, tag: string)
    ensures Items(xs, tag) == seq(|xs|, i requires 0 <= i < |xs| => MarkupAll(ItemNodes(xs, tag)[i]))
    decreases xs, 1
  {
    if |xs| > 0 {
      WriterMarkup(xs[0], tag);
      ItemsMarkup(xs[1..], tag);
    }
  }

  lemma {:induction false} ChildrenMarkup(f: seq<Entry>)
    ensures Children(f) == MarkupAll(ChildNodes(f))
    decreases f, 1
  {
    if |f| > 0 {
      EntryMarkup(f[0]);
      ChildrenMarkup(f[1..]);
      MarkupAppend(EntryNodes(f[0]), ChildNodes(f[1..]));
    }
  }

  lemma {:induction false} EntryMarkup(e: Entry)
    ensures Child(e) == MarkupAll(EntryNodes(e))
    decreases e, 0
  {
    if e.key != AttributesKey {
      match e.val
      case Arr(xs) =>
        ItemsMarkup(xs, e.key);
        LinesMarkup(ItemNodes(xs, e.key));
      case Obj(_) =>
        WriterMarkup(e.val, e.key);
      case _ =>
        TextElementMarkup(e.key, JsString(e.val));
    }
  }

  // ---------------------------------------------------------------------
  // Reading the written tree back.

  /** Element text that the written tree holds as exactly one text node: not
      empty (an empty element has no text child) and free of `<` and `&`.
      What a parser makes of such text (line ends, `]]>`) is outside the
      model, which reads the tree, not the markup. */
  predicate PlainText(s: string) {
    |s| > 0 && forall i :: 0 <= i < |s| ==> s[i] != '<' && s[i] != '&'
  }

  /** An `@attributes` value that reads back as itself: a non-empty object of
      string values under distinct names. */
  predicate AttrsOk(a: Value) {
    a.Obj? && |a.fields| > 0 && UniqueKeys(a.fields)
    && forall i :: 0 <= i < |a.fields| ==> a.fields[i].val.Str?
  }

  /** An array element that becomes exactly one element: text or an object. */
  predicate ItemOk(x: Value)
    decreases x, 0
  {
    match x
    case Str(s) => PlainText(s)
    case Obj(g) => XmlOk(g)
    case _ => false
  }

  /** A member value that reads back as itself: an item, or an array of at
      least two items (one item reads back as the item, none as nothing). */
  predicate ValueOk(v: Value)
    decreases v, 1
  {
    match v
    case Arr(xs) => |xs| >= 2 && forall i :: 0 <= i < |xs| ==> ItemOk(xs[i])
    case _ => ItemOk(v)
  }

  /** An object that reads back as itself: distinct non-empty keys, none
      of them `parsererror`, `@attributes` only first and only with string
      values, and every other member readable back. */
  predicate XmlOk(f: seq<Entry>)
    decreases f, 2
  {
    UniqueKeys(f)
    && (forall i :: 0 < i < |f| ==> f[i].key != AttributesKey)
    && (|f| > 0 && f[0].key == AttributesKey ==> AttrsOk(f[0].val))
    && forall i :: 0 <= i < |f| && f[i].key != AttributesKey ==>
      |f[i].key| > 0 && f[i].key != ParserErrorTag && ValueOk(f[i].val)
  }

  function GroupNames(gs: seq<Group>): (r: seq<string>)
    ensures |r| == |gs|
    ensures forall i :: 0 <= i < |gs| ==> r[i] == gs[i].name
  {
    seq(|gs|, i requires 0 <= i < |gs| => gs[i].name)
  }

  /** The values a member contributes under its key. */
  function Vals(v: Value): seq<Value> {
    if v.Arr? then v.items else [v]
  }

  /** The groups an object's members make, `@attributes` aside. */
  function Groups(f: seq<Entry>): seq<Group> {
    if |f| == 0 then []
    else (if f[0].key == AttributesKey then [] else [Group(f[0].key, Vals(f[0].val))]) + Groups(f[1..])
  }

  lemma {:induction false} AddToFresh(gs: seq<Group>, name: string, v: Value)
    requires name !in GroupNames(gs)
    ensures AddTo(gs, name, v) == gs + [Group(name, [v])]
    decreases |gs|
  {
    if |gs| > 0 {
      assert GroupNames(gs[1..]) == GroupNames(gs)[1..];
      AddToFresh(gs[1..], name, v);
    }
  }

  lemma {:induction false} AddToLast(gs: seq<Group>, name: string, vs: seq<Value>, v: Value)
    requires name !in GroupNames(gs)
    ensures AddTo(gs + [Group(name, vs)], name, v) == gs + [Group(name, vs + [v])]
    decreases |gs|
  {
    if |gs| > 0 {
      assert GroupNames(gs[1..]) == GroupNames(gs)[1..];
      assert (gs + [Group(name, vs)])[1..] == gs[1..] + [Group(name, vs)];
      AddToLast(gs[1..], name, vs, v);
    } else {
      assert gs + [Group(name, vs)] == [Group(name, vs)];
    }
  }

  lemma {:induction false} GroupsFromAppend(acc: seq<Group>, a: seq<XmlNode>, b: seq<XmlNode>)
    ensures GroupsFrom(acc, a + b) == GroupsFrom(GroupsFrom(acc, a), b)
    decreases |a|
  {
    if |a| > 0 {
      assert (a + b)[1..] == a[1..] + b;
      if a[0].Element? {
        GroupsFromAppend(AddTo(acc, a[0].name, ParseXmlNode(a[0])), a[1..], b);
      } else {
        GroupsFromAppend(acc, a[1..], b);
      }
    } else {
      assert a + b == b;
    }
  }

  /** Nodes that print as nothing hold no element, so the child loop skips
      them all. */
  lemma {:induction false} SilentNodes(acc: seq<Group>, cs: seq<XmlNode>)
    requires MarkupAll(cs) == ""
    ensures GroupsFrom(acc, cs) == acc
    decreases |cs|
  {
    if |cs| > 0 {
      assert Markup(cs[0]) == "";
      assert !cs[0].Element?;
      SilentNodes(acc, cs[1..]);
    }
  }

  /** The child loop sees through the newlines around the children. */
  lemma {:induction false} Padded(cs: seq<XmlNode>)
    ensures GroupsFrom([], [TextNode("\n")] + cs + [TextNode("\n")]) == GroupsFrom([], cs)
  {
    GroupsFromAppend([], [TextNode("\n")] + cs, [TextNode("\n")]);
    GroupsFromAppend([], [TextNode("\n")], cs);
  }

  /** An item is written as exactly one element named by the tag, which
      reads back as the item. */
  lemma {:induction false} ItemRead(x: Value, tag: string)
    requires ItemOk(x)
    ensures |Nodes(x, tag)| == 1 && Nodes(x, tag)[0].Element? && Nodes(x, tag)[0].name == tag
    ensures ParseXmlNode(Nodes(x, tag)[0]) == x
    decreases x, 3
  {
    if x.Obj? {
      ReadBack(x, tag);
    }
  }

  /** The rest of an array's items, one per line, join the group the first
      one opened. */
  lemma {:induction false} ItemsJoin(acc: seq<Group>, k: string, vs: seq<Value>, xs: seq<Value>)
    requires k !in GroupNames(acc)
    requires forall i :: 0 <= i < |xs| ==> ItemOk(xs[i])
    ensures GroupsFrom(acc + [Group(k, vs)], Lines(ItemNodes(xs, k))) == acc + [Group(k, vs + xs)]
    decreases xs, 3
  {
    if |xs| == 0 {
      assert vs + xs == vs;
    } else if |xs| == 1 {
      ItemsJoinLast(acc, k, vs, xs);
    } else {
      ItemsJoinMore(acc, k, vs, xs);
    }
  }

  lemma {:induction false} ItemsJoinLast(acc: seq<Group>, k: string, vs: seq<Value>, xs: seq<Value>)
    requires k !in GroupNames(acc) && |xs| == 1 && ItemOk(xs[0])
    ensures GroupsFrom(acc + [Group(k, vs)], Lines(ItemNodes(xs, k))) == acc + [Group(k, vs + xs)]
    decreases xs, 2
  {
    ItemOne(acc, k, vs, xs[0]);
    assert Lines(ItemNodes(xs, k)) == Nodes(xs[0], k);
    assert xs == [xs[0]];
  }

  lemma {:induction false} ItemsJoinMore(acc: seq<Group>, k: string, vs: seq<Value>, xs: seq<Value>)
    requires k !in GroupNames(acc) && |xs| > 1
    requires forall i :: 0 <= i < |xs| ==> ItemOk(xs[i])
    ensures GroupsFrom(acc + [Group(k, vs)], Lines(ItemNodes(xs, k))) == acc + [Group(k, vs + xs)]
    decreases xs, 2
  {
    ItemOne(acc, k, vs, xs[0]);
    var n := Nodes(xs[0], k)[0];
    LinesFirst(xs, k, n);
    ItemsStep(acc + [Group(k, vs)], n, Lines(ItemNodes(xs[1..], k)));
    assert forall i :: 0 <= i < |xs| - 1 ==> ItemOk(xs[1..][i]) by {
      assert forall i :: 0 <= i < |xs| - 1 ==> xs[1..][i] == xs[i + 1];
    }
    ItemsJoin(acc, k, vs + [xs[0]], xs[1..]);
    ShiftFirst(vs, xs);
  }

  /** One item joins the group under its tag. */
  lemma {:induction false} ItemOne(acc: seq<Group>, k: string, vs: seq<Value>, x: Value)
    requires k !in GroupNames(acc) && ItemOk(x)
    ensures Nodes(x, k) == [Nodes(x, k)[0]] && Nodes(x, k)[0].Element?
    ensures GroupsFrom(acc + [Group(k, vs)], [Nodes(x, k)[0]]) == acc + [Group(k, vs + [x])]
    decreases x, 4
  {
    ItemRead(x, k);
    AddToLast(acc, k, vs, x);
  }

  /** The lines of two or more items: the first item's one element, a
      newline, then the rest's lines. */
  lemma {:induction false} LinesFirst(xs: seq<Value>, k: string, n: XmlNode)
    requires |xs| > 1 && Nodes(xs[0], k) == [n]
    ensures Lines(ItemNodes(xs, k)) == [n] + [TextNode("\n")] + Lines(ItemNodes(xs[1..], k))
  {
    assert ItemNodes(xs, k)[1..] == ItemNodes(xs[1..], k);
  }

  /** One element, a newline, then the rest. */
  lemma {:induction false} ItemsStep(acc: seq<Group>, n: XmlNode, rest: seq<XmlNode>)
    requires n.Element?
    ensures GroupsFrom(acc, [n] + [TextNode("\n")] + rest) == GroupsFrom(GroupsFrom(acc, [n]), rest)
  {
    GroupsFromAppend(acc, [n] + [TextNode("\n")], rest);
    GroupsFromAppend(acc, [n], [TextNode("\n")]);
  }

  /** A member other than `@attributes` makes one group under its key. */
  lemma {:induction false} EntryGroup(acc: seq<Group>, e: Entry)
    requires e.key != AttributesKey && ValueOk(e.val)
    requires e.key !in GroupNames(acc)
    ensures GroupsFrom(acc, EntryNodes(e)) == acc + [Group(e.key, Vals(e.val))]
    decreases e, 1
  {
    if e.val.Arr? {
      var xs := e.val.items;
      ItemRead(xs[0], e.key);
      var n := Nodes(xs[0], e.key)[0];
      AddToFresh(acc, e.key, xs[0]);
      assert ItemNodes(xs, e.key)[1..] == ItemNodes(xs[1..], e.key);
      ItemsStep(acc, n, Lines(ItemNodes(xs[1..], e.key)));
      ItemsJoin(acc, e.key, [xs[0]], xs[1..]);
      assert [xs[0]] + xs[1..] == xs;
    } else {
      ItemRead(e.val, e.key);
      AddToFresh(acc, e.key, e.val);
    }
  }

  /** Distinct keys, and every member but `@attributes` readable back. */
  predicate Readable(f: seq<Entry>) {
    UniqueKeys(f) && forall i :: 0 <= i < |f| && f[i].key != AttributesKey ==> ValueOk(f[i].val)
  }

  lemma {:induction false} ReadableTail(f: seq<Entry>)
    requires Readable(f) && |f| > 0
    ensures Readable(f[1..])
    ensures f[0].key != AttributesKey ==> ValueOk(f[0].val)
  {
    assert forall i :: 0 <= i < |f| - 1 ==> f[1..][i] == f[i + 1];
  }

  /** Once the first member is placed, the rest stay apart from what is
      placed. */
  lemma {:induction false} ApartTail(names: seq<string>, f: seq<Entry>, more: seq<string>)
    requires UniqueKeys(f) && Apart(names, f) && |f| > 0
    requires forall x :: x in more ==> x == f[0].key
    ensures Apart(names + more, f[1..])
  {
    forall i | 0 <= i < |f| - 1
      ensures f[1..][i].key !in names + more
    {
      assert f[1..][i] == f[i + 1];
    }
  }

  lemma {:induction false} GroupNamesAppend(acc: seq<Group>, gs: seq<Group>)
    ensures GroupNames(acc + gs) == GroupNames(acc) + GroupNames(gs)
  {
  }

  /** The child loop over an object's members makes one group per member,
      in order. */
  lemma {:induction false} ChildGroups(acc: seq<Group>, f: seq<Entry>)
    requires Readable(f) && Apart(GroupNames(acc), f)
    ensures GroupsFrom(acc, ChildNodes(f)) == acc + Groups(f)
    decreases f, 2
  {
    if |f| > 0 {
      ReadableTail(f);
      GroupsFromAppend(acc, EntryNodes(f[0]), ChildNodes(f[1..]));
      var g := if f[0].key == AttributesKey then [] else [Group(f[0].key, Vals(f[0].val))];
      assert ChildNodes(f) == EntryNodes(f[0]) + ChildNodes(f[1..]);
      if f[0].key != AttributesKey {
        EntryGroup(acc, f[0]);
      } else {
        assert EntryNodes(f[0]) == [];
        assert acc + g == acc;
      }
      GroupNamesAppend(acc, g);
      ApartTail(GroupNames(acc), f, GroupNames(g));
      ChildGroups(acc + g, f[1..]);
      assert Groups(f) == g + Groups(f[1..]);
      assert acc + g + Groups(f[1..]) == acc + Groups(f);
    }
  }

  /** Members with distinct keys, none of them `@attributes`, all readable
      back. */
  predicate Plain(f: seq<Entry>) {
    Readable(f) && forall i :: 0 <= i < |f| ==> f[i].key != AttributesKey
  }

  lemma {:induction false} PlainTail(f: seq<Entry>)
    requires Plain(f) && |f| > 0
    ensures Plain(f[1..]) && ValueOk(f[0].val) && f[0].key != AttributesKey
  {
    ReadableTail(f);
    assert forall i :: 0 <= i < |f| - 1 ==> f[1..][i] == f[i + 1];
  }

  /** Assigning the groups back makes the members again. */
  lemma {:induction false} PutGroupsBack(acc: seq<Entry>, f: seq<Entry>)
    requires Plain(f) && Apart(Keys(acc), f)
    ensures PutGroups(acc, Groups(f)) == acc + f
    decreases |f|
  {
    if |f| > 0 {
      PutGroupsStep(acc, f);
      PutGroupsBack(acc + [f[0]], f[1..]);
      ShiftFirst(acc, f);
    }
  }

  /** The first group placed, the rest are placed after it. */
  lemma {:induction false} PutGroupsStep(acc: seq<Entry>, f: seq<Entry>)
    requires Plain(f) && Apart(Keys(acc), f) && |f| > 0
    ensures Plain(f[1..]) && Apart(Keys(acc + [f[0]]), f[1..])
    ensures PutGroups(acc, Groups(f)) == PutGroups(acc + [f[0]], Groups(f[1..]))
  {
    PlainTail(f);
    assert f[0].key !in Keys(acc);
    PutFirst(acc, f);
    KeysAppend(acc, [f[0]]);
    ApartTail(Keys(acc), f, Keys([f[0]]));
  }

  lemma {:induction false} PutFirst(acc: seq<Entry>, f: seq<Entry>)
    requires |f| > 0 && f[0].key != AttributesKey && f[0].key !in Keys(acc) && ValueOk(f[0].val)
    ensures PutGroups(acc, Groups(f)) == PutGroups(acc + [f[0]], Groups(f[1..]))
  {
    var gs := Groups(f);
    assert gs == [Group(f[0].key, Vals(f[0].val))] + Groups(f[1..]);
    assert gs[1..] == Groups(f[1..]);
    PutFresh(acc, f[0]);
  }

  /** One group placed under a fresh key. */
  lemma {:induction false} PutFresh(acc: seq<Entry>, e: Entry)
    requires e.key !in Keys(acc) && ValueOk(e.val)
    ensures PutGroups(acc, [Group(e.key, Vals(e.val))]) == acc + [e]
  {
    assert GroupValue(Group(e.key, Vals(e.val))) == e.val;
  }

  /** `@attributes` read back: one entry per attribute, in order. */
  lemma {:induction false} AttrEntriesBack(g: seq<Entry>)
    requires UniqueKeys(g)
    requires forall i :: 0 <= i < |g| ==> g[i].val.Str?
    ensures AttrEntries(AttrList(Obj(g))) == g
    decreases |g|
  {
    if |g| > 0 {
      var h := g[..|g| - 1];
      AttrEntriesStep(g);
      AttrInit(g);
      AttrEntriesBack(h);
      SplitLast(g);
    }
  }

  /** The attributes of all but the last member come first; the last one is
      assigned after them. */
  lemma {:induction false} AttrEntriesStep(g: seq<Entry>)
    requires |g| > 0 && g[|g| - 1].val.Str?
    ensures AttrEntries(AttrList(Obj(g)))
      == Put(AttrEntries(AttrList(Obj(g[..|g| - 1]))), g[|g| - 1].key, g[|g| - 1].val)
  {
    var a, n := AttrList(Obj(g)), |g| - 1;
    assert |a| == |g| && a[n] == Attr(g[n].key, JsString(g[n].val));
    assert Str(a[n].value) == g[n].val;
    assert a[..n] == AttrList(Obj(g[..n]));
  }

  /** All but the last member keep the attribute conditions, and the last
      key is new to them, so assigning it appends it. */
  lemma {:induction false} AttrInit(g: seq<Entry>)
    requires |g| > 0 && UniqueKeys(g)
    requires forall i :: 0 <= i < |g| ==> g[i].val.Str?
    ensures var h := g[..|g| - 1];
      && UniqueKeys(h) && (forall i :: 0 <= i < |h| ==> h[i].val.Str?)
      && Put(h, g[|g| - 1].key, g[|g| - 1].val) == h + [g[|g| - 1]]
  {
    var h := g[..|g| - 1];
    assert g[|g| - 1].key !in Keys(h);
  }

  /** An object the serialiser writes as an element reads back as itself. */
  lemma {:induction false} ReadBack(v: Value, tag: string)
    requires v.Obj? && XmlOk(v.fields)
    ensures |Nodes(v, tag)| == 1 && Nodes(v, tag)[0].Element? && Nodes(v, tag)[0].name == tag
    ensures ParseXmlNode(Nodes(v, tag)[0]) == v
    decreases v, 2
  {
    var f := v.fields;
    var cs := ChildNodes(f);
    ChildGroups([], f);
    if MarkupAll(cs) != "" {
      Padded(cs);
    } else {
      SilentNodes([], cs);
    }
    ReadBackMembers(f, tag);
  }

  /** The members of a readable object, given that its child loop makes its
      groups. */
  lemma {:induction false} ReadBackMembers(f: seq<Entry>, tag: string)
    requires XmlOk(f)
    requires GroupsFrom([], Nodes(Obj(f), tag)[0].children) == Groups(f)
    ensures ParseXmlNode(Nodes(Obj(f), tag)[0]) == Obj(f)
  {
    var n := Nodes(Obj(f), tag)[0];
    assert |n.children| != 1;
    if |f| > 0 && f[0].key == AttributesKey {
      WithAttributes(f, tag);
    } else {
      WithoutAttributes(f, tag);
    }
  }

  lemma {:induction false} WithAttributes(f: seq<Entry>, tag: string)
    requires XmlOk(f) && |f| > 0 && f[0].key == AttributesKey
    ensures PutGroups([Entry(AttributesKey, Obj(AttrEntries(ElementAttrs(f))))], Groups(f)) == f
  {
    AttrBase(f);
    assert Groups(f) == Groups(f[1..]);
    PlainRest(f);
    PutGroupsBack([f[0]], f[1..]);
    assert [f[0]] + f[1..] == f;
  }

  /** The `@attributes` entry the reader makes is the first member. */
  lemma {:induction false} AttrBase(f: seq<Entry>)
    requires XmlOk(f) && |f| > 0 && f[0].key == AttributesKey
    ensures Entry(AttributesKey, Obj(AttrEntries(ElementAttrs(f)))) == f[0]
  {
    var a := f[0].val;
    assert AttrsOk(a);
    assert ElementAttrs(f) == AttrList(a);
    AttrEntriesBack(a.fields);
  }

  lemma {:induction false} PlainRest(f: seq<Entry>)
    requires XmlOk(f) && |f| > 0 && f[0].key == AttributesKey
    ensures Plain(f[1..]) && Apart(Keys([f[0]]), f[1..])
  {
    assert forall i :: 0 <= i < |f| - 1 ==> f[1..][i] == f[i + 1];
  }

  lemma {:induction false} WithoutAttributes(f: seq<Entry>, tag: string)
    requires XmlOk(f) && !(|f| > 0 && f[0].key == AttributesKey)
    ensures ElementAttrs(f) == []
    ensures PutGroups([], Groups(f)) == f
  {
    PlainAll(f);
    PutGroupsBack([], f);
    assert [] + f == f;
  }

  /** An object whose first member is not `@attributes` has none. */
  lemma {:induction false} PlainAll(f: seq<Entry>)
    requires XmlOk(f) && !(|f| > 0 && f[0].key == AttributesKey)
    ensures Plain(f) && AttributesKey !in Keys(f) && Apart(Keys([]), f)
  {
    assert Keys([]) == [];
  }

  /** Every `@attributes` is a readable attribute object and every other
      member readable back. */
  predicate Safe(f: seq<Entry>) {
    forall i :: 0 <= i < |f| ==> if f[i].key == AttributesKey then AttrsOk(f[i].val) else ValueOk(f[i].val)
  }

  lemma {:induction false} XmlSafe(f: seq<Entry>)
    requires XmlOk(f)
    ensures Safe(f)
  {
    forall i | 0 <= i < |f| && f[i].key == AttributesKey
      ensures AttrsOk(f[i].val)
    {
      assert i == 0;
    }
  }

  /** A readable value never reaches `Object.entries(null)`. */
  lemma {:induction false} ValueSafe(v: Value)
    requires ValueOk(v)
    ensures !ThrowsIn(v)
    decreases v, 2
  {
    match v
    case Arr(xs) => ItemsSafe(xs);
    case Obj(g) =>
      assert ItemOk(v);
      XmlSafe(g);
      EntriesSafe(g);
    case _ =>
  }

  lemma {:induction false} ItemsSafe(xs: seq<Value>)
    requires forall i :: 0 <= i < |xs| ==> ItemOk(xs[i])
    ensures !ItemsThrow(xs)
    decreases xs, 1
  {
    if |xs| > 0 {
      ValueSafe(xs[0]);
      ItemsSafe(xs[1..]);
    }
  }

  lemma {:induction false} EntriesSafe(f: seq<Entry>)
    requires Safe(f)
    ensures !EntriesThrow(f)
    decreases f, 1
  {
    if |f| > 0 {
      if f[0].key != AttributesKey {
        ValueSafe(f[0].val);
      }
      assert Safe(f[1..]) by {
        assert forall i :: 0 <= i < |f| - 1 ==> f[1..][i] == f[i + 1];
      }
      EntriesSafe(f[1..]);
    }
  }

  /** The XML round trip: `jsonToXml` of a readable object is the declaration
      followed by the markup of one `root` element, and `parseXmlNode` of
      that element gives the object back. */
  lemma {:induction false} XmlRoundTrip(f: seq<Entry>)
    requires XmlOk(f)
    ensures |Nodes(Obj(f), "root")| == 1 && Nodes(Obj(f), "root")[0].Element?
    ensures JsonToXml(Obj(f)) == Success(Declaration + Markup(Nodes(Obj(f), "root")[0]))
    ensures XmlToJson(Some(Nodes(Obj(f), "root")[0])) == Success(Obj(f))
  {
    XmlSafe(f);
    EntriesSafe(f);
    WriterMarkup(Obj(f), "root");
    ReadBack(Obj(f), "root");
    var n := Nodes(Obj(f), "root")[0];
    assert MarkupAll([n]) == Markup(n);
    NodesFree(Obj(f), "root");
    assert Nodes(Obj(f), "root") == [n];
  }

  /** The nodes of `a + b` hold an element of a name exactly when those of
      `a` or those of `b` do. */
  lemma {:induction false} AnyAppend(a: seq<XmlNode>, b: seq<XmlNode>, name: string)
    ensures AnyHasElement(a + b, name) <==> AnyHasElement(a, name) || AnyHasElement(b, name)
    decreases |a|
  {
    if |a| == 0 {
      assert a + b == b;
    } else {
      AnyAppend(a[1..], b, name);
      assert (a + b)[1..] == a[1..] + b;
    }
  }

  /** The serialiser never writes a `parsererror` element for a readable
      item under another tag. */
  lemma {:induction false} NodesFree(v: Value, tag: string)
    requires ItemOk(v) && tag != ParserErrorTag
    ensures !AnyHasElement(Nodes(v, tag), ParserErrorTag)
    decreases v, 2
  {
    match v
    case Obj(f) =>
      var cs := ChildNodes(f);
      ChildrenFree(f);
      var t := [TextNode("\n")];
      if MarkupAll(cs) != "" {
        AnyAppend(t, cs, ParserErrorTag);
        AnyAppend(t + cs, t, ParserErrorTag);
        TextFree("\n");
      }
      var kids := if MarkupAll(cs) != "" then t + cs + t else [];
      ElementFree(tag, ElementAttrs(f), kids);
    case _ =>
      TextFree(JsString(v));
      ElementFree(tag, [], [TextNode(JsString(v))]);
  }

  /** A lone text node holds no element. */
  lemma {:induction false} TextFree(t: string)
    ensures !AnyHasElement([TextNode(t)], ParserErrorTag)
  {
    assert [TextNode(t)][1..] == [];
  }

  /** An element whose children hold no `parsererror` element holds none
      unless it is one. */
  lemma {:induction false} ElementFree(tag: string, attrs: seq<Attr>, kids: seq<XmlNode>)
    requires tag != ParserErrorTag && !AnyHasElement(kids, ParserErrorTag)
    ensures !AnyHasElement([Element(tag, attrs, kids)], ParserErrorTag)
  {
    assert [Element(tag, attrs, kids)][1..] == [];
  }

  lemma {:induction false} ItemLinesFree(xs: seq<Value>, tag: string)
    requires forall i :: 0 <= i < |xs| ==> ItemOk(xs[i])
    requires tag != ParserErrorTag
    ensures !AnyHasElement(Lines(ItemNodes(xs, tag)), ParserErrorTag)
    decreases xs, 1
  {
    if |xs| > 0 {
      NodesFree(xs[0], tag);
      if |xs| > 1 {
        ItemLinesFree(xs[1..], tag);
        assert ItemNodes(xs, tag)[1..] == ItemNodes(xs[1..], tag);
        var t := [TextNode("\n")];
        AnyAppend(Nodes(xs[0], tag), t, ParserErrorTag);
        AnyAppend(Nodes(xs[0], tag) + t, Lines(ItemNodes(xs[1..], tag)), ParserErrorTag);
      }
    }
  }

  lemma {:induction false} ChildrenFree(f: seq<Entry>)
    requires forall i :: 0 <= i < |f| && f[i].key != AttributesKey ==>
      f[i].key != ParserErrorTag && ValueOk(f[i].val)
    ensures !AnyHasElement(ChildNodes(f), ParserErrorTag)
    decreases f, 1
  {
    if |f| > 0 {
      EntryFree(f[0]);
      assert forall i :: 0 <= i < |f| - 1 ==> f[1..][i] == f[i + 1];
      ChildrenFree(f[1..]);
      AnyAppend(EntryNodes(f[0]), ChildNodes(f[1..]), ParserErrorTag);
    }
  }

  lemma {:induction false} EntryFree(e: Entry)
    requires e.key != AttributesKey ==> e.key != ParserErrorTag && ValueOk(e.val)
    ensures !AnyHasElement(EntryNodes(e), ParserErrorTag)
    decreases e, 0
  {
    if e.key != AttributesKey {
      match e.val
      case Arr(xs) => ItemLinesFree(xs, e.key);
      case Obj(_) => NodesFree(e.val, e.key);
      case _ =>
        TextFree(JsString(e.val));
        ElementFree(e.key, [], [TextNode(JsString(e.val))]);
    }
  }
}
