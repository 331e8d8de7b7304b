/** The JSON-like value tree every converter goes through, the ordered
    property assignment `obj[key] = value`, JavaScript's `String(value)`, and
    the errors the converters throw. */
module Values {
  import opened Wrappers
  import opened Text
  import opened Numbers

  /** A JavaScript value as the converter handles it. `Undef` is `undefined`
      (a missing tabular or CSV cell); an object is its list of own entries in
      enumeration order. */
  datatype Value =
    | Undef
    | Null
    | Bool(b: bool)
    | Num(n: Decimal)
    | Str(s: string)
    | Arr(items: seq<Value>)
    | Obj(fields: seq<Entry>)

  datatype Entry = Entry(key: string, val: Value)

  /** `null` and `undefined`, on which a property read throws. */
  predicate Nullish(v: Value) {
    v.Null? || v.Undef?
  }

  /** `typeof v === 'object' && v !== null && !Array.isArray(v)` */
  predicate AllObjects(xs: seq<Value>) {
    forall i :: 0 <= i < |xs| ==> xs[i].Obj?
  }

  /** An object in front of objects. */
  lemma {:induction false} ObjectsCons(x: Value, xs: seq<Value>)
    requires x.Obj? && AllObjects(xs)
    ensures AllObjects([x] + xs)
  {
    forall i | 0 <= i < |[x] + xs|
      ensures ([x] + xs)[i].Obj?
    {
      if i > 0 {
        assert ([x] + xs)[i] == xs[i - 1];
      }
    }
  }

  predicate IsScalar(v: Value) {
    v.Null? || v.Bool? || v.Num? || v.Str?
  }

  /** Moving the first element of `f` onto the end of `acc`. */
  lemma {:induction false} ShiftFirst<T>(acc: seq<T>, f: seq<T>)
    requires |f| > 0
    ensures acc + [f[0]] + f[1..] == acc + f
  {
  }

  /** An object is its members but the last, then the last. */
  lemma {:induction false} SplitLast(g: seq<Entry>)
    requires |g| > 0
    ensures g == g[..|g| - 1] + [g[|g| - 1]]
  {
  }

  /** `Object.keys(obj)` */
  function Keys(f: seq<Entry>): (ks: seq<string>)
    ensures |ks| == |f|
    ensures forall i :: 0 <= i < |f| ==> ks[i] == f[i].key
  {
    if |f| == 0 then [] else [f[0].key] + Keys(f[1..])
  }

  predicate UniqueKeys(f: seq<Entry>) {
    forall i, j :: 0 <= i < j < |f| ==> f[i].key != f[j].key
  }

  predicate Distinct(ks: seq<string>) {
    forall i, j :: 0 <= i < j < |ks| ==> ks[i] != ks[j]
  }

  /** No key of `f` is among `names`. */
  predicate Apart(names: seq<string>, f: seq<Entry>) {
    forall i :: 0 <= i < |f| ==> f[i].key !in names
  }

  lemma {:induction false} KeysAppend(acc: seq<Entry>, f: seq<Entry>)
    ensures Keys(acc + f) == Keys(acc) + Keys(f)
  {
    assert |Keys(acc + f)| == |Keys(acc) + Keys(f)|;
    forall i | 0 <= i < |acc + f|
      ensures Keys(acc + f)[i] == (Keys(acc) + Keys(f))[i]
    {
    }
  }

  /** `obj[key]`: the value of the first entry with that key. */
  function Lookup(f: seq<Entry>, k: string): (r: Option<Value>)
    ensures r.None? <==> k !in Keys(f)
    ensures r.Some? ==> Entry(k, r.value) in f
  {
    if |f| == 0 then None
    else if f[0].key == k then Some(f[0].val)
    else
      var r := Lookup(f[1..], k);
      assert Keys(f) == [f[0].key] + Keys(f[1..]);
      r
  }

  function IndexOfKey(f: seq<Entry>, k: string): (i: nat)
    requires k in Keys(f)
    ensures i < |f| && f[i].key == k
    ensures forall j :: 0 <= j < i ==> f[j].key != k
  {
    if f[0].key == k then 0 else 1 + IndexOfKey(f[1..], k)
  }

  /** `obj[key] = value`: an existing key keeps its place and takes the new
      value; a new key is appended. */
  function Put(f: seq<Entry>, k: string, v: Value): seq<Entry>
  {
    if k in Keys(f) then f[IndexOfKey(f, k) := Entry(k, v)] else f + [Entry(k, v)]
  }

  /** After an assignment the key holds the new value, every other key keeps
      its old value, the keys are the old ones plus the assigned one, and keys
      stay unique. */
  lemma {:induction false} PutLookup(f: seq<Entry>, k: string, v: Value)
    requires UniqueKeys(f)
    ensures UniqueKeys(Put(f, k, v))
    ensures Lookup(Put(f, k, v), k) == Some(v)
    ensures forall k' :: k' != k ==> Lookup(Put(f, k, v), k') == Lookup(f, k')
    ensures forall x :: x in Keys(Put(f, k, v)) <==> x in Keys(f) || x == k
  {
    PutKeys(f, k, v);
    PutUnique(f, k, v);
    PutLookupSame(f, k, v);
    var r := Put(f, k, v);
    forall k' | k' != k
      ensures Lookup(r, k') == Lookup(f, k')
    {
      PutLookupOther(f, k, v, k');
    }
  }

  lemma {:induction false} PutKeys(f: seq<Entry>, k: string, v: Value)
    ensures k in Keys(f) ==> Keys(Put(f, k, v)) == Keys(f)
    ensures k !in Keys(f) ==> Keys(Put(f, k, v)) == Keys(f) + [k]
    ensures forall x :: x in Keys(Put(f, k, v)) <==> x in Keys(f) || x == k
  {
    var r := Put(f, k, v);
    if k in Keys(f) {
      assert Keys(r) == Keys(f);
    } else {
      assert Keys(r) == Keys(f) + [k];
    }
  }

  lemma {:induction false} PutUnique(f: seq<Entry>, k: string, v: Value)
    requires UniqueKeys(f)
    ensures UniqueKeys(Put(f, k, v))
  {
    var r := Put(f, k, v);
    PutKeys(f, k, v);
    assert forall i :: 0 <= i < |r| ==> Keys(r)[i] == r[i].key;
    if k !in Keys(f) {
      assert forall i :: 0 <= i < |f| ==> r[i].key == f[i].key;
      assert forall i :: 0 <= i < |f| ==> f[i].key != k;
    }
  }

  lemma {:induction false} PutLookupSame(f: seq<Entry>, k: string, v: Value)
    requires UniqueKeys(f)
    ensures Lookup(Put(f, k, v), k) == Some(v)
  {
    var r := Put(f, k, v);
    PutUnique(f, k, v);
    LookupUnique(r, k);
    if k in Keys(f) {
      assert r[IndexOfKey(f, k)] == Entry(k, v);
    } else {
      assert r[|f|] == Entry(k, v);
    }
  }

  lemma {:induction false} PutLookupOther(f: seq<Entry>, k: string, v: Value, k': string)
    requires UniqueKeys(f) && k' != k
    ensures Lookup(Put(f, k, v), k') == Lookup(f, k')
  {
    var r := Put(f, k, v);
    PutKeys(f, k, v);
    PutUnique(f, k, v);
    LookupUnique(f, k');
    LookupUnique(r, k');
    if k' in Keys(f) {
      var j := IndexOfKey(f, k');
      assert r[j] == f[j];
    }
  }

  /** With unique keys, the lookup of a key present at index i is the value
      stored there. */
  lemma {:induction false} LookupUnique(f: seq<Entry>, k: string)
    requires UniqueKeys(f)
    ensures forall i :: 0 <= i < |f| && f[i].key == k ==> Lookup(f, k) == Some(f[i].val)
  {
    if |f| > 0 && f[0].key != k {
      LookupUnique(f[1..], k);
      assert forall i :: 1 <= i < |f| ==> f[i] == f[1..][i - 1];
    }
  }

  /** `Object.fromEntries` of a header and a row with distinct field names:
      entry i is field i with cell i. */
  function Zip(fields: seq<string>, cells: seq<Value>): (r: seq<Entry>)
    requires |fields| == |cells|
    ensures |r| == |fields|
    ensures forall i :: 0 <= i < |r| ==> r[i] == Entry(fields[i], cells[i])
  {
    seq(|fields|, i requires 0 <= i < |fields| => Entry(fields[i], cells[i]))
  }

  /** `fieldNames.forEach((f, i) => item[f] = cells[i])` starting from `{}`. */
  function RowObject(fields: seq<string>, cells: seq<Value>): seq<Entry>
    requires |fields| == |cells|
    decreases |fields|
  {
    if |fields| == 0 then []
    else Put(RowObject(fields[..|fields| - 1], cells[..|cells| - 1]), fields[|fields| - 1], cells[|cells| - 1])
  }

  /** The row object has exactly the header's fields as keys, each once. */
  lemma {:induction false} RowObjectKeys(fields: seq<string>, cells: seq<Value>)
    requires |fields| == |cells|
    ensures UniqueKeys(RowObject(fields, cells))
    ensures forall x :: x in Keys(RowObject(fields, cells)) <==> x in fields
    decreases |fields|
  {
    if |fields| > 0 {
      var n := |fields| - 1;
      RowObjectKeys(fields[..n], cells[..n]);
      PutStep(RowObject(fields[..n], cells[..n]), fields[..n], fields[n], cells[n]);
      assert fields == fields[..n] + [fields[n]];
    }
  }

  /** One assignment of the row loop keeps the keys unique and adds the field. */
  lemma {:induction false} PutStep(prev: seq<Entry>, fs: seq<string>, k: string, v: Value)
    requires UniqueKeys(prev)
    requires forall x :: x in Keys(prev) <==> x in fs
    ensures UniqueKeys(Put(prev, k, v))
    ensures forall x :: x in Keys(Put(prev, k, v)) <==> x in fs + [k]
  {
    PutKeys(prev, k, v);
    PutUnique(prev, k, v);
  }

  /** The value of a field is the cell under its last occurrence in the
      header: a repeated field name keeps the later cell. */
  lemma {:induction false} RowObjectLookup(fields: seq<string>, cells: seq<Value>, j: nat)
    requires |fields| == |cells| && j < |fields|
    requires forall m :: j < m < |fields| ==> fields[m] != fields[j]
    ensures Lookup(RowObject(fields, cells), fields[j]) == Some(cells[j])
    decreases |fields|
  {
    var n := |fields| - 1;
    var fs, cs := fields[..n], cells[..n];
    var prev := RowObject(fs, cs);
    var r := RowObject(fields, cells);
    assert r == Put(prev, fields[n], cells[n]);
    RowObjectUnique(fs, cs);
    if j < n {
      assert fs[j] == fields[j] && cs[j] == cells[j];
      assert forall m :: j < m < |fs| ==> fs[m] != fs[j] by {
        forall m | j < m < |fs|
          ensures fs[m] != fs[j]
        {
          assert fs[m] == fields[m];
        }
      }
      RowObjectLookup(fs, cs, j);
    }
    LookupAfterPut(prev, fields[n], cells[n], fields[j], cells[j]);
    assert Lookup(r, fields[j]) == Some(cells[j]);
  }

  lemma {:induction false} LookupAfterPut(prev: seq<Entry>, k: string, v: Value, x: string, expected: Value)
    requires UniqueKeys(prev)
    requires x != k ==> Lookup(prev, x) == Some(expected)
    requires x == k ==> v == expected
    ensures Lookup(Put(prev, k, v), x) == Some(expected)
  {
    if x == k {
      PutLookupSame(prev, k, v);
    } else {
      PutLookupOther(prev, k, v, x);
    }
  }

  lemma {:induction false} RowObjectUnique(fields: seq<string>, cells: seq<Value>)
    requires |fields| == |cells|
    ensures UniqueKeys(RowObject(fields, cells))
  {
    RowObjectKeys(fields, cells);
  }

  /** With distinct field names the row object pairs field i with cell i. */
  lemma {:induction false} RowObjectZip(fields: seq<string>, cells: seq<Value>)
    requires |fields| == |cells| && Distinct(fields)
    ensures RowObject(fields, cells) == Zip(fields, cells)
    decreases |fields|
  {
    if |fields| > 0 {
      var n := |fields| - 1;
      var fs, cs := fields[..n], cells[..n];
      var prev := RowObject(fs, cs);
      DistinctSnoc(fields);
      RowObjectZip(fs, cs);
      ZipSnoc(fields, cells);
      assert Put(prev, fields[n], cells[n]) == prev + [Entry(fields[n], cells[n])] by {
        KeysZip(fs, cs);
      }
    }
  }

  lemma {:induction false} DistinctSnoc(ks: seq<string>)
    requires |ks| > 0 && Distinct(ks)
    ensures Distinct(ks[..|ks| - 1]) && ks[|ks| - 1] !in ks[..|ks| - 1]
  {
  }

  lemma {:induction false} KeysZip(fields: seq<string>, cells: seq<Value>)
    requires |fields| == |cells|
    ensures Keys(Zip(fields, cells)) == fields
  {
  }

  lemma {:induction false} ZipSnoc(fields: seq<string>, cells: seq<Value>)
    requires |fields| == |cells| && |fields| > 0
    ensures var n := |fields| - 1;
      Zip(fields, cells) == Zip(fields[..n], cells[..n]) + [Entry(fields[n], cells[n])]
  {
  }

  /** `String(value)`: null and undefined by name, numbers in decimal, strings
      verbatim, arrays as their elements joined with commas, other objects as
      `[object Object]`. */
  function JsString(v: Value): string
  {
    match v
    case Undef => "undefined"
    case Null => "null"
    case Bool(b) => if b then "true" else "false"
    case Num(d) => DecimalText(d)
    case Str(s) => s
    case Arr(xs) => Join(ElementStrings(xs), ",")
    case Obj(_) => "[object Object]"
  }

  /** The element texts of `Array.prototype.join`, which renders `null` and
      `undefined` elements as empty. */
  function ElementStrings(xs: seq<Value>): (r: seq<string>)
    ensures |r| == |xs|
  {
    if |xs| == 0 then []
    else [if xs[0].Null? || xs[0].Undef? then "" else JsString(xs[0])] + ElementStrings(xs[1..])
  }

  /** What the converters throw. */
  datatype Error =
    | InvalidToon(detail: string)
    | InvalidCsv
    | CsvExportRequiresArray
    | InvalidXml
    | TypeError(detail: string)
  {
    /** The `message` of the thrown `Error`. A `TypeError` comes from the
        JavaScript engine, whose wording is not fixed; the model keeps a short
        description. */
    function Message(): string {
      match this
      case InvalidToon(d) => "Invalid TOON format: " + d
      case InvalidCsv => "Invalid CSV: must have header and at least one data row"
      case CsvExportRequiresArray => "CSV export requires an array of objects"
      case InvalidXml => "Invalid XML format"
      case TypeError(d) => d
    }
  }
}
