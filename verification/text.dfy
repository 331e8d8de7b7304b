/** Character classes and the string operations the converter borrows from
    JavaScript: `trim`, `trimStart`, `split` on one character, `join`, and the
    indentation measure `line.length - line.trimStart().length`. */
module Text {

  /** `\s` of the converter's regular expressions, which is also the set that
      `trim` removes, restricted to ASCII. */
  predicate IsSpace(c: char) {
    c == ' ' || c == '\t' || c == '\n' || c == '\r' || c == '\U{000B}' || c == '\U{000C}'
  }

  /** `\w`: ASCII letters, digits and underscore. */
  predicate IsWordChar(c: char) {
    ('a' <= c <= 'z') || ('A' <= c <= 'Z') || ('0' <= c <= '9') || c == '_'
  }

  predicate IsDigit(c: char) {
    '0' <= c <= '9'
  }

  /** The characters the regular-expression `.` refuses to match. */
  predicate IsLineTerminator(c: char) {
    c == '\n' || c == '\r' || c == '\U{2028}' || c == '\U{2029}'
  }

  predicate AllSpaces(s: string) {
    forall i :: 0 <= i < |s| ==> IsSpace(s[i])
  }

  predicate AllWordChars(s: string) {
    forall i :: 0 <= i < |s| ==> IsWordChar(s[i])
  }

  /** A key written as a non-empty run of word characters, which a `\w+`
      pattern reads whole. */
  predicate IsKey(k: string) {
    |k| > 0 && AllWordChars(k)
  }

  predicate AllDigits(s: string) {
    forall i :: 0 <= i < |s| ==> IsDigit(s[i])
  }

  /** A string that `trim` leaves unchanged. */
  predicate NoSurroundingSpace(s: string) {
    |s| > 0 ==> !IsSpace(s[0]) && !IsSpace(s[|s| - 1])
  }

  predicate StartsWith(s: string, prefix: string) {
    |prefix| <= |s| && s[..|prefix|] == prefix
  }

  predicate EndsWith(s: string, suffix: string) {
    |suffix| <= |s| && s[|s| - |suffix|..] == suffix
  }

  /** Number of leading whitespace characters: the indentation the decoder
      compares, `line.length - line.trimStart().length`. */
  function Indent(s: string): (n: nat)
    ensures n <= |s|
    ensures AllSpaces(s[..n])
    ensures n < |s| ==> !IsSpace(s[n])
  {
    if |s| == 0 || !IsSpace(s[0]) then 0 else 1 + Indent(s[1..])
  }

  function TrailingSpaces(s: string): (n: nat)
    ensures n <= |s|
    ensures forall i :: |s| - n <= i < |s| ==> IsSpace(s[i])
    ensures n < |s| ==> !IsSpace(s[|s| - n - 1])
  {
    if |s| == 0 || !IsSpace(s[|s| - 1]) then 0
    else 1 + TrailingSpaces(s[..|s| - 1])
  }

  function TrimStart(s: string): (r: string)
    ensures |r| <= |s| && r == s[|s| - |r|..]
    ensures |r| > 0 ==> !IsSpace(r[0])
    ensures AllSpaces(s[..|s| - |r|])
  {
    s[Indent(s)..]
  }

  function TrimEnd(s: string): (r: string)
    ensures |r| <= |s| && r == s[..|r|]
    ensures |r| > 0 ==> !IsSpace(r[|r| - 1])
    ensures AllSpaces(s[|r|..])
    ensures forall i :: |r| <= i < |s| ==> IsSpace(s[i])
  {
    s[..|s| - TrailingSpaces(s)]
  }

  /** `String.prototype.trim`: the result is `s` with the whitespace at both
      ends removed, and it is empty exactly when `s` is blank. */
  function Trim(s: string): (r: string)
    ensures NoSurroundingSpace(r)
    ensures |r| == 0 <==> AllSpaces(s)
    ensures exists a :: 0 <= a <= |s| - |r| && r == s[a..a + |r|] && AllSpaces(s[..a]) && AllSpaces(s[a + |r|..])
  {
    TrimParts(s);
    TrimEnd(TrimStart(s))
  }

  lemma {:induction false} TrimParts(s: string)
    ensures var t := TrimStart(s); var r := TrimEnd(t); var a := |s| - |t|;
      && r == s[a..a + |r|] && AllSpaces(s[..a]) && AllSpaces(s[a + |r|..])
      && (|r| == 0 <==> AllSpaces(s))
  {
    var t := TrimStart(s);
    var r := TrimEnd(t);
    var a := |s| - |t|;
    assert r == s[a..a + |r|];
    assert s[a + |r|..] == t[|r|..];
    assert |r| > 0 ==> r[0] == s[a];
    assert |r| == 0 ==> s[..a] == s;
  }

  /** `!line.trim()`: the line holds only whitespace. */
  predicate IsBlank(s: string) {
    AllSpaces(s)
  }

  lemma {:induction false} TrimUnchanged(s: string)
    requires NoSurroundingSpace(s)
    ensures Trim(s) == s
  {
    if |s| > 0 {
      assert Indent(s) == 0;
      assert TrailingSpaces(s) == 0;
    }
  }

  lemma {:induction false} IndentOfPadded(pad: nat, rest: string)
    requires |rest| > 0 && !IsSpace(rest[0])
    ensures Indent(Spaces(pad) + rest) == pad
    decreases pad
  {
    if pad > 0 {
      assert (Spaces(pad) + rest)[1..] == Spaces(pad - 1) + rest;
      IndentOfPadded(pad - 1, rest);
    } else {
      assert Spaces(pad) + rest == rest;
    }
  }

  /** Index of the first `c` in `s`, or `|s|` when there is none. */
  function IndexOf(s: string, c: char): (k: nat)
    ensures k <= |s|
    ensures c !in s[..k]
    ensures k < |s| ==> s[k] == c
  {
    if |s| == 0 then 0
    else if s[0] == c then 0
    else
      var k := IndexOf(s[1..], c);
      assert s[..k + 1] == [s[0]] + s[1..][..k];
      1 + k
  }

  lemma {:induction false} IndexOfAfterPrefix(a: string, b: string, c: char)
    requires c !in a && |b| > 0 && b[0] == c
    ensures IndexOf(a + b, c) == |a|
  {
    assert (a + b)[|a|] == c;
  }

  lemma {:induction false} IndexOfAbsent(s: string, c: char)
    requires c !in s
    ensures IndexOf(s, c) == |s|
  {
  }

  /** `' '.repeat(n)` */
  function Spaces(n: nat): (r: string)
    ensures |r| == n && AllSpaces(r)
    ensures forall i :: 0 <= i < n ==> r[i] == ' '
  {
    seq(n, i => ' ')
  }

  /** `parts.join(sep)` */
  function Join(parts: seq<string>, sep: string): string
  {
    if |parts| == 0 then ""
    else if |parts| == 1 then parts[0]
    else parts[0] + sep + Join(parts[1..], sep)
  }

  /** `s.split(c)` for a one-character separator: the pieces hold no
      separator, and joining them back with the separator gives `s`. */
  function Split(s: string, c: char): (r: seq<string>)
    ensures |r| >= 1
    ensures forall i :: 0 <= i < |r| ==> c !in r[i]
    ensures Join(r, [c]) == s
  {
    if |s| == 0 then [""]
    else
      var rest := Split(s[1..], c);
      if s[0] == c then
        assert [c] + Join(rest, [c]) == s;
        [""] + rest
      else
        var r := [[s[0]] + rest[0]] + rest[1..];
        assert r[1..] == rest[1..];
        assert Join(r, [c]) == [s[0]] + Join(rest, [c]);
        r
  }

  lemma {:induction false} JoinAppend(a: seq<string>, b: seq<string>, sep: string)
    requires |a| > 0 && |b| > 0
    ensures Join(a + b, sep) == Join(a, sep) + sep + Join(b, sep)
    decreases |a|
  {
    if |a| > 1 {
      assert (a + b)[1..] == a[1..] + b;
      JoinAppend(a[1..], b, sep);
    } else {
      assert (a + b)[1..] == b;
    }
  }

  /** Joining a piece that is itself a join flattens: the lines pushed by the
      encoder as one multi-line string are the lines of that string. */
  lemma {:induction false} JoinFlatten(a: seq<string>, b: seq<string>, c: seq<string>, sep: string)
    requires |b| > 0
    ensures Join(a + [Join(b, sep)] + c, sep) == Join(a + b + c, sep)
  {
    if |a| > 0 && |c| > 0 {
      JoinAppend(a, [Join(b, sep)] + c, sep);
      JoinAppend([Join(b, sep)], c, sep);
      JoinAppend(a, b + c, sep);
      JoinAppend(b, c, sep);
      assert a + [Join(b, sep)] + c == a + ([Join(b, sep)] + c);
      assert a + b + c == a + (b + c);
    } else if |a| > 0 {
      JoinAppend(a, [Join(b, sep)], sep);
      JoinAppend(a, b, sep);
      assert a + [Join(b, sep)] + c == a + [Join(b, sep)];
      assert a + b + c == a + b;
    } else if |c| > 0 {
      JoinAppend([Join(b, sep)], c, sep);
      JoinAppend(b, c, sep);
      assert [] + [Join(b, sep)] + c == [Join(b, sep)] + c;
      assert [] + b + c == b + c;
    } else {
      assert a + [Join(b, sep)] + c == [Join(b, sep)];
      assert a + b + c == b;
    }
  }

  lemma {:induction false} SplitNoSeparator(s: string, c: char)
    requires c !in s
    ensures Split(s, c) == [s]
  {
    if |s| > 0 {
      SplitNoSeparator(s[1..], c);
      assert [s[0]] + s[1..] == s;
    }
  }

  lemma {:induction false} SplitAtSeparator(a: string, b: string, c: char)
    requires c !in a
    ensures Split(a + [c] + b, c) == [a] + Split(b, c)
    decreases |a|
  {
    var s := a + [c] + b;
    if |a| == 0 {
      assert s[1..] == b;
    } else {
      assert s[1..] == a[1..] + [c] + b;
      SplitAtSeparator(a[1..], b, c);
      assert [s[0]] + a[1..] == a;
    }
  }

  /** Splitting a join gives back the pieces, provided no piece holds the
      separator. */
  lemma {:induction false} SplitJoin(parts: seq<string>, c: char)
    requires |parts| > 0
    requires forall i :: 0 <= i < |parts| ==> c !in parts[i]
    ensures Split(Join(parts, [c]), c) == parts
    decreases |parts|
  {
    if |parts| == 1 {
      SplitNoSeparator(parts[0], c);
    } else {
      SplitJoin(parts[1..], c);
      SplitAtSeparator(parts[0], Join(parts[1..], [c]), c);
      assert parts[0] + [c] + Join(parts[1..], [c]) == Join(parts, [c]);
      assert [parts[0]] + parts[1..] == parts;
    }
  }

  /** The first `c` is at `k` exactly when `c` is there and not before. */
  lemma {:induction false} IndexOfIs(s: string, c: char, k: nat)
    requires k < |s| && s[k] == c && c !in s[..k]
    ensures IndexOf(s, c) == k
    decreases k
  {
    if k > 0 {
      assert s[0] == s[..k][0];
      assert s[1..][..k - 1] == s[1..k];
      assert s[1..k] == s[..k][1..];
      IndexOfIs(s[1..], c, k - 1);
    }
  }


  /** The indentation is `n` exactly when `n` spaces are followed by a
      non-space or the end. */
  lemma {:induction false} IndentIs(s: string, n: nat)
    requires n <= |s| && AllSpaces(s[..n]) && (n < |s| ==> !IsSpace(s[n]))
    ensures Indent(s) == n
    decreases n
  {
    if n > 0 {
      assert IsSpace(s[..n][0]);
      assert s[1..][..n - 1] == s[..n][1..];
      IndentIs(s[1..], n - 1);
    }
  }

  /** Trimming indentation off text with no surrounding whitespace leaves
      the text. */
  lemma {:induction false} TrimPadded(pad: string, t: string)
    requires AllSpaces(pad) && |t| > 0 && NoSurroundingSpace(t)
    ensures Trim(pad + t) == t
  {
    var s := pad + t;
    assert s[..|pad|] == pad;
    IndentIs(s, |pad|);
    assert TrimStart(s) == t;
    TrimUnchanged(t);
  }

  /** A join of pieces whose first and last are not empty starts with the
      first piece's first character and ends with the last piece's last. */
  lemma {:induction false} JoinEnds(parts: seq<string>, sep: string)
    requires |parts| > 0 && |parts[0]| > 0 && |parts[|parts| - 1]| > 0
    ensures var s := Join(parts, sep);
      |s| > 0 && s[0] == parts[0][0] && s[|s| - 1] == parts[|parts| - 1][|parts[|parts| - 1]| - 1]
  {
    JoinLast(parts, sep);
  }

  lemma {:induction false} JoinLast(parts: seq<string>, sep: string)
    requires |parts| > 0 && |parts[|parts| - 1]| > 0
    ensures var s := Join(parts, sep);
      |s| > 0 && s[|s| - 1] == parts[|parts| - 1][|parts[|parts| - 1]| - 1]
    decreases |parts|
  {
    if |parts| > 1 {
      JoinLast(parts[1..], sep);
    }
  }

  /** A character that no piece and not the separator holds is not in the
      join. */
  lemma {:induction false} JoinExcludes(parts: seq<string>, sep: string, c: char)
    requires c !in sep
    requires forall i :: 0 <= i < |parts| ==> c !in parts[i]
    ensures c !in Join(parts, sep)
    decreases |parts|
  {
    if |parts| > 1 {
      JoinExcludes(parts[1..], sep, c);
    }
  }

  /** `s.split(c)` has a single piece exactly when `c` does not occur in `s`. */
  lemma {:induction false} SplitOnePiece(s: string, c: char)
    ensures |Split(s, c)| == 1 <==> c !in s
  {
    var r := Split(s, c);
    if |r| == 1 {
      assert Join(r, [c]) == r[0];
    } else {
      var t := r[0] + [c] + Join(r[1..], [c]);
      assert Join(r, [c]) == t;
      assert t[|r[0]|] == c;
    }
  }

  /** The length of the run of word characters `s` starts with. */
  function WordRun(s: string): (w: nat)
    ensures w <= |s| && AllWordChars(s[..w])
    ensures w < |s| ==> !IsWordChar(s[w])
  {
    if |s| == 0 || !IsWordChar(s[0]) then 0
    else
      var w := WordRun(s[1..]);
      assert s[..w + 1] == [s[0]] + s[1..][..w];
      w + 1
  }

  lemma {:induction false} WordRunIs(s: string, n: nat)
    requires n <= |s| && AllWordChars(s[..n]) && (n < |s| ==> !IsWordChar(s[n]))
    ensures WordRun(s) == n
    decreases n
  {
    if n > 0 {
      assert IsWordChar(s[..n][0]);
      assert s[1..][..n - 1] == s[..n][1..];
      WordRunIs(s[1..], n - 1);
    }
  }

  lemma {:induction false} WordRunAll(s: string)
    requires AllWordChars(s)
    ensures WordRun(s) == |s|
    decreases |s|
  {
    if |s| > 0 {
      assert IsWordChar(s[0]);
      WordRunAll(s[1..]);
    }
  }

  /** Regrouping a concatenation of three sequences, stated apart: asserted
      inline, the sequence axioms it needs meet every other fact of the
      caller. */
  lemma {:induction false} Regroup<T>(x: seq<T>, y: seq<T>, z: seq<T>)
    ensures x + (y + z) == x + y + z
  {
  }

  /** The two halves of a concatenation, taken back apart. */
  lemma {:induction false} PrefixSuffix<T>(x: seq<T>, y: seq<T>)
    ensures (x + y)[..|x|] == x && (x + y)[|x|..] == y
  {
  }
}
