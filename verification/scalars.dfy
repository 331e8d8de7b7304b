/** The two scalar lexers: `parseValue`, which reads a TOON or CSV cell, and
    `parseYamlValue`, which reads a YAML scalar. Neither fails: text that is
    not a literal comes back as a string. */
module Scalars {
  import opened Wrappers
  import opened Text
  import opened Numbers
  import opened Values

  /** `parseValue(value)`: the words `null`, `true` and `false`, then any
      non-blank text `Number` accepts, then the text itself. The branch that
      calls `parseFloat` for texts with a point and a trailing zero yields the
      same number as `Number` on every literal the model lexes. */
  function ParseValue(s: string): (r: Value)
    ensures r.Null? <==> s == "null"
    ensures r.Bool? <==> s == "true" || s == "false"
    ensures r.Bool? ==> (r.b <==> s == "true")
    ensures r.Num? ==> !AllSpaces(s) && LexNumber(Trim(s)) == Some(r.n)
    ensures r.Str? ==> r.s == s && LexNumber(Trim(s)).None?
    ensures !r.Undef? && !r.Arr? && !r.Obj?
  {
    if s == "null" then Null
    else if s == "true" then Bool(true)
    else if s == "false" then Bool(false)
    else
      match LexNumber(Trim(s))
      case Some(d) => Num(d)
      case None => Str(s)
  }

  /** Text that `parseValue` gives back unchanged as a string. */
  predicate PlainString(s: string) {
    s != "null" && s != "true" && s != "false" && LexNumber(Trim(s)).None?
  }

  /** A blank cell, and any text that is not a literal, stays a string. */
  lemma {:induction false} ParseValueString(s: string)
    ensures ParseValue(s) == Str(s) <==> PlainString(s)
  {
  }

  /** The decimal text of a number reads back as that number. */
  lemma {:induction false} ParseValueNumber(d: Decimal)
    requires Normalized(d)
    ensures ParseValue(DecimalText(d)) == Num(d)
  {
    LexDecimalText(d);
    ParseValueLiteral(DecimalText(d), d);
  }

  /** A scalar the value printer writes (`String(value)`) is read back by
      `parseValue` as itself, provided a string value does not look like a
      literal. */
  lemma {:induction false} ParseValueScalar(v: Value)
    requires v.Null? || v.Bool? || (v.Num? && Normalized(v.n)) || (v.Str? && PlainString(v.s))
    ensures ParseValue(JsString(v)) == v
  {
    if v.Num? {
      ParseValueNumber(v.n);
    }
  }

  /** The cell `index` of a split row: `parseValue(values[index]?.trim())`,
      where a missing cell is `undefined` and `parseValue(undefined)` returns
      it unchanged. */
  function Cell(values: seq<string>, index: nat): (r: Value)
    ensures index >= |values| <==> r.Undef?
    ensures index < |values| ==> r == ParseValue(Trim(values[index]))
  {
    if index < |values| then ParseValue(Trim(values[index])) else Undef
  }

  /** The cells of a split row under `n` field names. */
  function Cells(values: seq<string>, n: nat): (r: seq<Value>)
    ensures |r| == n
    ensures forall i :: 0 <= i < n ==> r[i] == Cell(values, i)
  {
    seq(n, i requires 0 <= i < n => Cell(values, i))
  }

  /** `parseYamlValue(value)`: `null` or `~`, the booleans, a number (tested
      before any quote is removed), then a quoted text with its first and last
      character dropped, then the text itself. */
  function ParseYamlValue(s: string): (r: Value)
    ensures r.Null? <==> s == "null" || s == "~"
    ensures r.Bool? <==> s == "true" || s == "false"
    ensures r.Num? ==> !AllSpaces(s) && LexNumber(Trim(s)) == Some(r.n)
    ensures r.Str? ==> LexNumber(Trim(s)).None?
    ensures r.Str? && !Quoted(s) ==> r.s == s
    ensures r.Str? && Quoted(s) ==> r.s == Unquote(s)
    ensures !r.Undef? && !r.Arr? && !r.Obj?
  {
    if s == "null" || s == "~" then Null
    else if s == "true" then Bool(true)
    else if s == "false" then Bool(false)
    else
      match LexNumber(Trim(s))
      case Some(d) => Num(d)
      case None =>
        if Quoted(s) then Str(Unquote(s)) else Str(s)
  }

  /** Starts and ends with the same quote character; a lone quote counts. */
  predicate Quoted(s: string) {
    |s| > 0 && (s[0] == '"' || s[0] == '\'') && s[|s| - 1] == s[0]
  }

  /** `value.slice(1, -1)`: empty when fewer than two characters remain. */
  function Unquote(s: string): (r: string)
    ensures |s| >= 2 ==> |r| == |s| - 2 && forall i :: 0 <= i < |r| ==> r[i] == s[i + 1]
    ensures |s| < 2 ==> r == ""
  {
    if |s| >= 2 then s[1..|s| - 1] else ""
  }

  /** A quoted text that is not a number reads back as its inside. */
  lemma {:induction false} ParseYamlQuoted(q: char, inner: string)
    requires q == '"' || q == '\''
    ensures ParseYamlValue([q] + inner + [q]) == Str(inner)
  {
    QuotedShape(q, inner);
    QuotedNotNumber([q] + inner + [q]);
  }

  /** A quoted text is none of the words, and its inside is what the quotes
      enclose. */
  lemma {:induction false} QuotedShape(q: char, inner: string)
    requires q == '"' || q == '\''
    ensures var s := [q] + inner + [q];
      && Quoted(s) && Unquote(s) == inner
      && s != "null" && s != "~" && s != "true" && s != "false"
  {
    var s := [q] + inner + [q];
    assert s[0] == q && s[|s| - 1] == q;
    assert s[1..|s| - 1] == inner;
    assert s[0] != "null"[0] && s[0] != "~"[0] && s[0] != "true"[0] && s[0] != "false"[0];
  }

  /** A text that starts with a quote, trimmed or not, is not a number. */
  lemma {:induction false} QuotedNotNumber(s: string)
    requires Quoted(s)
    ensures LexNumber(Trim(s)).None?
  {
    TrimUnchanged(s);
    QuoteNotNumber(s);
  }

  lemma {:induction false} QuoteNotNumber(s: string)
    requires |s| > 0 && (s[0] == '"' || s[0] == '\'')
    ensures LexNumber(s).None?
  {
    LexNumberStart(s);
  }

  /** A trimmed number literal reads as its number. */
  lemma {:induction false} ParseValueLiteral(s: string, d: Decimal)
    requires NoSurroundingSpace(s) && LexNumber(s) == Some(d)
    ensures ParseValue(s) == Num(d)
  {
    TrimUnchanged(s);
    LexNumberStart(s);
    assert s[0] != 'n' && s[0] != 't' && s[0] != 'f';
  }
}
