/** `countTokens` and `calculateTokenSavings`: the converter's rough token
    estimate, the matches of `/\w+|[^\w\s]/g`, and the saving of one text
    over another. */
module Tokens {
  import opened Text

  /** `[^\w\s]`: a character that is neither a word character nor
      whitespace. */
  predicate IsSymbol(c: char) {
    !IsWordChar(c) && !IsSpace(c)
  }

  /** One match of the pattern: a run of word characters, or one symbol. */
  predicate IsToken(t: string) {
    (|t| > 0 && AllWordChars(t)) || (|t| == 1 && IsSymbol(t[0]))
  }

  /** The matches of `/\w+|[^\w\s]/g`, left to right: `\w+` takes the
      longest run, whitespace is passed over. */
  function Tokens(s: string): seq<string>
    decreases |s|
  {
    if |s| == 0 then []
    else if IsWordChar(s[0]) then
      var w := WordRun(s);
      [s[..w]] + Tokens(s[w..])
    else if IsSpace(s[0]) then Tokens(s[1..])
    else [s[..1]] + Tokens(s[1..])
  }

  /** Every match is a run of word characters or a single symbol. */
  lemma {:induction false} TokensMatch(s: string)
    ensures forall i :: 0 <= i < |Tokens(s)| ==> IsToken(Tokens(s)[i])
    decreases |s|
  {
    if |s| > 0 {
      if IsWordChar(s[0]) {
        var w := WordRun(s);
        TokensMatch(s[w..]);
        assert IsToken(s[..w]);
      } else if IsSpace(s[0]) {
        TokensMatch(s[1..]);
      } else {
        TokensMatch(s[1..]);
        assert IsToken(s[..1]);
      }
    }
  }

  /** `countTokens(text)`: the number of matches; the empty text has none. */
  function CountTokens(s: string): nat {
    |Tokens(s)|
  }

  /** The text without its whitespace. */
  function NonSpace(s: string): (r: string)
    ensures |r| <= |s|
  {
    if |s| == 0 then [] else (if IsSpace(s[0]) then [] else [s[0]]) + NonSpace(s[1..])
  }

  /** The tokens side by side. */
  function Concat(ts: seq<string>): string {
    if |ts| == 0 then [] else ts[0] + Concat(ts[1..])
  }

  lemma {:induction false} NonSpaceAppend(a: string, b: string)
    ensures NonSpace(a + b) == NonSpace(a) + NonSpace(b)
    decreases |a|
  {
    if |a| > 0 {
      assert (a + b)[1..] == a[1..] + b;
      NonSpaceAppend(a[1..], b);
    } else {
      assert a + b == b;
    }
  }

  lemma {:induction false} NonSpaceWord(a: string)
    requires AllWordChars(a)
    ensures NonSpace(a) == a
    decreases |a|
  {
    if |a| > 0 {
      assert IsWordChar(a[0]);
      NonSpaceWord(a[1..]);
    }
  }

  /** The tokens spell out the text with its whitespace left out: nothing
      but whitespace is skipped, and nothing is matched twice. */
  lemma {:induction false} TokensSpell(s: string)
    ensures Concat(Tokens(s)) == NonSpace(s)
    decreases |s|
  {
    if |s| > 0 {
      if IsWordChar(s[0]) {
        TokensSpell(s[WordRun(s)..]);
        SpellWord(s);
      } else if IsSpace(s[0]) {
        TokensSpell(s[1..]);
      } else {
        var ts := Tokens(s);
        assert ts[1..] == Tokens(s[1..]);
        TokensSpell(s[1..]);
      }
    }
  }

  /** The word-run step of `TokensSpell`. */
  lemma {:induction false} SpellWord(s: string)
    requires |s| > 0 && IsWordChar(s[0])
    requires Concat(Tokens(s[WordRun(s)..])) == NonSpace(s[WordRun(s)..])
    ensures Concat(Tokens(s)) == NonSpace(s)
  {
    var w := WordRun(s);
    assert Tokens(s) == [s[..w]] + Tokens(s[w..]);
    assert Concat(Tokens(s)) == s[..w] + Concat(Tokens(s[w..]));
    assert s == s[..w] + s[w..];
    NonSpaceAppend(s[..w], s[w..]);
    NonSpaceWord(s[..w]);
  }

  /** No token is empty, so there are at most as many tokens as characters
      they spell. */
  lemma {:induction false} ConcatLength(ts: seq<string>)
    requires forall i :: 0 <= i < |ts| ==> |ts[i]| > 0
    ensures |ts| <= |Concat(ts)|
    ensures |ts| == 0 <==> |Concat(ts)| == 0
    decreases |ts|
  {
    if |ts| > 0 {
      ConcatLength(ts[1..]);
    }
  }

  lemma {:induction false} NonSpaceEmpty(s: string)
    ensures |NonSpace(s)| == 0 <==> AllSpaces(s)
    decreases |s|
  {
    if |s| > 0 {
      NonSpaceEmpty(s[1..]);
      assert AllSpaces(s) <==> IsSpace(s[0]) && AllSpaces(s[1..]);
    }
  }

  /** At most one token per non-whitespace character, and none exactly
      when the text is all whitespace. */
  lemma {:induction false} CountBounds(s: string)
    ensures CountTokens(s) <= |NonSpace(s)| <= |s|
    ensures CountTokens(s) == 0 <==> AllSpaces(s)
  {
    TokensSpell(s);
    TokensMatch(s);
    ConcatLength(Tokens(s));
    NonSpaceEmpty(s);
  }

  /** A run of word characters bounded by whitespace ends where the
      whitespace starts. */
  lemma {:induction false} WordRunStops(a: string, b: string)
    requires |b| > 0 && IsSpace(b[0])
    ensures WordRun(a + b) == WordRun(a)
    decreases |a|
  {
    if |a| > 0 && IsWordChar(a[0]) {
      assert (a + b)[1..] == a[1..] + b;
      WordRunStops(a[1..], b);
    } else if |a| == 0 {
      assert a + b == b;
    }
  }

  /** Whitespace splits the count: the tokens of `a`, a whitespace
      character and `b` are those of `a` followed by those of `b`. */
  lemma {:induction false} TokensSplit(a: string, c: char, b: string)
    requires IsSpace(c)
    ensures Tokens(a + [c] + b) == Tokens(a) + Tokens(b)
    ensures CountTokens(a + [c] + b) == CountTokens(a) + CountTokens(b)
  {
    TokensAppend(a, [c] + b);
    assert a + [c] + b == a + ([c] + b);
    assert ([c] + b)[1..] == b;
  }

  /** Text that starts with whitespace ends every match before it. */
  lemma {:induction false} TokensAppend(a: string, t: string)
    requires |t| > 0 && IsSpace(t[0])
    ensures Tokens(a + t) == Tokens(a) + Tokens(t)
    decreases |a|
  {
    if |a| == 0 {
      assert a + t == t;
    } else if IsWordChar(a[0]) {
      TokensAppend(a[WordRun(a)..], t);
      AppendWord(a, t);
    } else {
      TokensAppend(a[1..], t);
      AppendSymbol(a, t);
    }
  }

  /** The step of `TokensAppend` past a character that is not part of a
      word. */
  lemma {:induction false} AppendSymbol(a: string, t: string)
    requires |a| > 0 && !IsWordChar(a[0])
    requires Tokens(a[1..] + t) == Tokens(a[1..]) + Tokens(t)
    ensures Tokens(a + t) == Tokens(a) + Tokens(t)
  {
    ConsSlices(a, t);
    if IsSpace(a[0]) {
      assert Tokens(a + t) == Tokens(a[1..] + t);
      assert Tokens(a) == Tokens(a[1..]);
    } else {
      assert Tokens(a + t) == [a[..1]] + Tokens(a[1..] + t);
      assert Tokens(a) == [a[..1]] + Tokens(a[1..]);
      Regroup([a[..1]], Tokens(a[1..]), Tokens(t));
    }
  }

  /** The word-run step of `TokensAppend`. */
  lemma {:induction false} AppendWord(a: string, t: string)
    requires |t| > 0 && IsSpace(t[0]) && |a| > 0 && IsWordChar(a[0])
    requires Tokens(a[WordRun(a)..] + t) == Tokens(a[WordRun(a)..]) + Tokens(t)
    ensures Tokens(a + t) == Tokens(a) + Tokens(t)
  {
    WordRunStops(a, t);
    var w := WordRun(a);
    TakeDropAppend(a, t, w);
    assert Tokens(a + t) == [a[..w]] + Tokens(a[w..] + t);
    assert Tokens(a) == [a[..w]] + Tokens(a[w..]);
    Regroup([a[..w]], Tokens(a[w..]), Tokens(t));
  }

  /** The first character of `a + t` and the rest, for a non-empty `a`. */
  lemma {:induction false} ConsSlices(a: string, t: string)
    requires |a| > 0
    ensures (a + t)[0] == a[0] && (a + t)[..1] == a[..1] && (a + t)[1..] == a[1..] + t
  {
  }

  /** Cutting `a + t` inside `a`. */
  lemma {:induction false} TakeDropAppend(a: string, t: string, w: nat)
    requires 0 < w <= |a|
    ensures (a + t)[0] == a[0] && (a + t)[..w] == a[..w] && (a + t)[w..] == a[w..] + t
  {
  }

  /** A word is one token. */
  lemma {:induction false} WordIsOneToken(s: string)
    requires |s| > 0 && AllWordChars(s)
    ensures Tokens(s) == [s]
  {
    assert IsWordChar(s[0]);
    assert WordRun(s) == |s| by {
      WordRunAll(s);
    }
    assert s[|s|..] == [];
    assert s[..|s|] == s;
  }

  /** The result of `calculateTokenSavings`. */
  datatype Savings = Savings(jsonTokens: nat, toonTokens: nat, savedTokens: int, savedPercentage: int)

  /** `Math.round(p / q * 100)` for `q > 0`, on exact rationals: the integer
      nearest to 100·p/q, a half rounding up. */
  function RoundPercent(p: int, q: int): (r: int)
    requires q > 0
    ensures 2 * q * r <= 200 * p + q < 2 * q * (r + 1)
  {
    var x := 200 * p + q;
    var r := x / (2 * q);
    assert x == 2 * q * r + x % (2 * q);
    r
  }

  /** `calculateTokenSavings(jsonString, toonString)` */
  function CalculateTokenSavings(json: string, toon: string): (r: Savings)
    ensures r.jsonTokens == CountTokens(json) && r.toonTokens == CountTokens(toon)
    ensures r.savedTokens == r.jsonTokens - r.toonTokens
    ensures r.jsonTokens == 0 ==> r.savedPercentage == 0
    ensures r.jsonTokens > 0 ==>
      2 * r.jsonTokens * r.savedPercentage <= 200 * r.savedTokens + r.jsonTokens < 2 * r.jsonTokens * (r.savedPercentage + 1)
  {
    var j := CountTokens(json);
    var t := CountTokens(toon);
    var saved := j - t;
    Savings(j, t, saved, if j > 0 then RoundPercent(saved, j) else 0)
  }

  /** The percentage is at most 100, reached when the second text has no
      token, and 0 when both texts have as many tokens. */
  lemma {:induction false} PercentBounds(json: string, toon: string)
    ensures CalculateTokenSavings(json, toon).savedPercentage <= 100
    ensures CountTokens(json) > 0 && CountTokens(toon) == 0 ==> CalculateTokenSavings(json, toon).savedPercentage == 100
    ensures CountTokens(json) == CountTokens(toon) ==> CalculateTokenSavings(json, toon).savedTokens == 0
    ensures CountTokens(json) == CountTokens(toon) ==> CalculateTokenSavings(json, toon).savedPercentage == 0
  {
    var r := CalculateTokenSavings(json, toon);
    var j := r.jsonTokens;
    var p := r.savedPercentage;
    if j > 0 {
      assert r.savedTokens <= j;
      assert 2 * j * p <= 200 * j + j;
      PercentCap(j, p, r.savedTokens);
    }
  }

  lemma {:induction false} PercentCap(j: int, p: int, s: int)
    requires j > 0 && s <= j
    requires 2 * j * p <= 200 * s + j < 2 * j * (p + 1)
    ensures p <= 100
    ensures s == j ==> p == 100
    ensures s == 0 ==> p == 0
  {
    assert 200 * s + j <= 2 * j * 101 - j;
    FactorLess(2 * j, p, 101);
    if s == j {
      FactorLess(2 * j, 100, p + 1);
    }
    if s == 0 {
      FactorLess(2 * j, p, 1);
      FactorLess(2 * j, 0, p + 1);
    }
  }

  /** Dividing both sides of a strict inequality by a positive factor. */
  lemma {:induction false} FactorLess(a: int, x: int, y: int)
    requires a > 0 && a * x < a * y
    ensures x < y
  {
  }
}
