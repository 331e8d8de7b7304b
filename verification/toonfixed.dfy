/** The TOON decoder with its block rule corrected. `parseToonLines` ends a
    nested block at the first non-blank line indented less than the line
    just before it; here a nested block ends at the first non-blank line
    indented no deeper than the `key:` line that opened it, the rule the
    tabular-row loop already follows. Every other line is read as before. */
module ToonFixed {
  import opened Wrappers
  import opened Text
  import opened Values
  import opened Decoder

  /** Line `e` closes a block whose opening line is indented by `parent`:
      it is the end of the input, or a non-blank line no deeper than the
      opening line. The top level has parent `-1`, so only the end closes
      it. */
  predicate ClosesAt(lines: seq<string>, parent: int, e: nat)
    requires e <= |lines|
  {
    e == |lines| || (!IsBlank(lines[e]) && Indent(lines[e]) <= parent)
  }

  /** The corrected loop over a block from line `i`, with `acc` gathered so
      far; it returns the entries and the index of the line that closes the
      block. */
  function FixedBlock(lines: seq<string>, parent: int, i: nat, acc: seq<Entry>): (r: (seq<Entry>, nat))
    requires i <= |lines|
    ensures i <= r.1 <= |lines|
    ensures ClosesAt(lines, parent, r.1)
    decreases |lines| - i, 1
  {
    if i == |lines| then (acc, i)
    else if IsBlank(lines[i]) then FixedBlock(lines, parent, i + 1, acc)
    else if Indent(lines[i]) <= parent then (acc, i)
    else
      var next := FixedStep(lines, i, acc);
      FixedBlock(lines, parent, next.1, next.0)
  }

  /** One turn of the corrected loop: a nested key reads the block that its
      own line opens; any other line is read as the source reads it. */
  function FixedStep(lines: seq<string>, i: nat, acc: seq<Entry>): (r: (seq<Entry>, nat))
    requires i < |lines|
    ensures i < r.1 <= |lines|
    decreases |lines| - i, 0
  {
    match Classify(lines[i])
    case NestedLine(key) =>
      var nested := FixedBlock(lines, Indent(lines[i]), i + 1, []);
      (Put(acc, key, Obj(nested.0)), nested.1)
    case _ => Step(lines, i, acc)
  }

  /** A line that neither is blank nor closes the block takes one turn of
      the corrected loop. */
  lemma {:induction false} BlockEnter(lines: seq<string>, parent: int, i: nat, acc: seq<Entry>)
    requires i < |lines| && !IsBlank(lines[i]) && Indent(lines[i]) > parent
    ensures FixedBlock(lines, parent, i, acc)
      == FixedBlock(lines, parent, FixedStep(lines, i, acc).1, FixedStep(lines, i, acc).0)
  {
  }

  /** One turn of the corrected loop on a nested key. */
  lemma {:induction false} StepNestedFixed(lines: seq<string>, i: nat, acc: seq<Entry>, key: string)
    requires i < |lines| && Classify(lines[i]) == NestedLine(key)
    ensures var b := FixedBlock(lines, Indent(lines[i]), i + 1, []);
      FixedStep(lines, i, acc).0 == Put(acc, key, Obj(b.0)) && FixedStep(lines, i, acc).1 == b.1
  {
  }

  /** `toonToJson` with the corrected loop: a root table is read as before,
      any other text as one block that only the end of the input closes. */
  function FixedToonToJson(text: string): Result<Value, Error>
  {
    var lines := Split(text, '\n');
    match FirstNonBlank(lines)
    case Some(j) =>
      if MatchHeader(lines[j]).Some? then ParseRootArray(lines)
      else Success(Obj(FixedBlock(lines, -1, 0, []).0))
    case None => Success(Obj(FixedBlock(lines, -1, 0, []).0))
  }

  /** A text whose first line is neither blank nor a root header is read as
      the one block its lines hold; the empty text is the empty object. */
  lemma {:induction false} FixedObjectText(text: string, lines: seq<string>)
    requires Split(text, '\n') == lines && |lines| > 0
    requires !IsBlank(lines[0]) && MatchHeader(lines[0]).None?
    ensures FixedToonToJson(text) == Success(Obj(FixedBlock(lines, -1, 0, []).0))
  {
  }

  lemma {:induction false} FixedEmptyText()
    ensures FixedToonToJson("") == Success(Obj([]))
  {
    assert Split("", '\n') == [""];
    assert FixedBlock([""], -1, 0, []) == ([], 1);
  }

  /** The corrected `toonToJson` has the source's shape: a root array exactly
      when the first non-blank line opens with a header and is the first
      line, the source's error exactly when such a header sits below leading
      blank lines, and an object for every other text. */
  lemma {:induction false} FixedShape(text: string)
    ensures var lines := Split(text, '\n');
      var j := FirstNonBlank(lines);
      var r := FixedToonToJson(text);
      && (r.Failure? <==> j.Some? && j.value > 0 && MatchHeader(lines[j.value]).Some?)
      && (r.Failure? ==> r.error == InvalidToon("Invalid root array format"))
      && (r.Success? && r.value.Arr? <==> j == Some(0) && MatchHeader(lines[0]).Some?)
      && (r.Success? ==> r.value.Arr? || r.value.Obj?)
  {
    var lines := Split(text, '\n');
    match FirstNonBlank(lines)
    case Some(j) =>
      if MatchHeader(lines[j]).Some? {
        if j == 0 {
          TrimKeepsHeader(lines[0]);
        } else {
          BlankHasNoHeader(lines[0]);
        }
      }
    case None =>
  }

  /** The corrected decoder differs from the source's only on texts that
      are not root tables: on those both read the same array. */
  lemma {:induction false} FixedRootAgrees(text: string)
    requires var lines := Split(text, '\n');
      FirstNonBlank(lines).Some? && MatchHeader(lines[FirstNonBlank(lines).value]).Some?
    ensures FixedToonToJson(text) == ToonToJson(text)
    ensures FixedToonToJson(text) == ParseRootArray(Split(text, '\n'))
  {
  }
}
