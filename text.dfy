/** String helpers the handlers rely on: ASCII case mapping (what `toLowerCase` and
    `toUpperCase` do on ASCII text), substring search (`includes`), first and last index of
    a character, and the decimal rendering of a natural number (template-string
    interpolation of an index). */
module Text {
  import opened Http

  function LowerChar(c: char): char
  {
    if 'A' <= c <= 'Z' then (c as int + 32) as char else c
  }

  function UpperChar(c: char): char
  {
    if 'a' <= c <= 'z' then (c as int - 32) as char else c
  }

  function Lower(s: string): (r: string)
    ensures |r| == |s|
    ensures forall i :: 0 <= i < |s| ==> r[i] == LowerChar(s[i])
  {
    seq(|s|, i requires 0 <= i < |s| => LowerChar(s[i]))
  }

  function Upper(s: string): (r: string)
    ensures |r| == |s|
    ensures forall i :: 0 <= i < |s| ==> r[i] == UpperChar(s[i])
  {
    seq(|s|, i requires 0 <= i < |s| => UpperChar(s[i]))
  }

  /** Comparing upper-cased text with an upper-case word is the same test as comparing
      lower-cased text with the lower-case word. */
  lemma UpperEqualsIffLowerEquals(s: string, up: string, low: string)
    requires |up| == |low|
    requires forall i :: 0 <= i < |up| ==> 'A' <= up[i] <= 'Z' && low[i] == LowerChar(up[i])
    ensures Upper(s) == up <==> Lower(s) == low
  {
    if Upper(s) == up {
      forall i | 0 <= i < |s| ensures Lower(s)[i] == low[i] {
        assert UpperChar(s[i]) == up[i];
      }
    }
    if Lower(s) == low {
      forall i | 0 <= i < |s| ensures Upper(s)[i] == up[i] {
        assert LowerChar(s[i]) == low[i];
      }
    }
  }

  /** `word` appears in `text` starting at index `i`. */
  predicate OccursAt(text: string, word: string, i: int)
  {
    0 <= i && i + |word| <= |text| && text[i..i + |word|] == word
  }

  /** `text.includes(word)`. */
  predicate Contains(text: string, word: string)
  {
    exists i :: 0 <= i <= |text| && OccursAt(text, word, i)
  }

  /** A word found inside a word found in the text is found in the text. */
  lemma ContainsTransitive(text: string, mid: string, word: string)
    requires Contains(text, mid) && Contains(mid, word)
    ensures Contains(text, word)
  {
    var i :| 0 <= i <= |text| && OccursAt(text, mid, i);
    var j :| 0 <= j <= |mid| && OccursAt(mid, word, j);
    assert text[i..i + |mid|] == mid;
    forall k | 0 <= k < |word| ensures text[i + j + k] == word[k] {
      assert text[i + j + k] == text[i..i + |mid|][j + k] == mid[j + k];
      assert mid[j + k] == mid[j..j + |word|][k];
    }
    assert text[i + j..i + j + |word|] == word;
    assert OccursAt(text, word, i + j);
  }

  /** The first index of `c` in `s`. */
  function IndexOf(s: string, c: char): (r: Option<nat>)
    ensures r.Some? ==> r.value < |s| && s[r.value] == c && c !in s[..r.value]
    ensures r.None? <==> c !in s
  {
    if s == [] then None
    else if s[0] == c then Some(0)
    else
      match IndexOf(s[1..], c)
      case None => None
      case Some(k) =>
        assert s[..k + 1] == [s[0]] + s[1..][..k];
        Some(k + 1)
  }

  /** An occurrence with no earlier one is the first. */
  lemma {:induction false} IndexOfFirst(s: string, c: char, k: nat)
    requires k < |s| && s[k] == c && c !in s[..k]
    ensures IndexOf(s, c) == Some(k)
  {
    if k > 0 {
      assert s[0] in s[..k];
      assert s[1..][..k - 1] == s[1..k];
      assert forall x :: x in s[1..k] ==> x in s[..k];
      IndexOfFirst(s[1..], c, k - 1);
    }
  }

  /** The last index of `c` in `s`. */
  function LastIndexOf(s: string, c: char): (r: Option<nat>)
    ensures r.Some? ==> r.value < |s| && s[r.value] == c && c !in s[r.value + 1..]
    ensures r.None? <==> c !in s
  {
    if s == [] then None
    else if s[|s| - 1] == c then Some(|s| - 1)
    else
      var r := LastIndexOf(s[..|s| - 1], c);
      assert r.Some? ==> s[r.value + 1..] == s[..|s| - 1][r.value + 1..] + [s[|s| - 1]];
      assert s == s[..|s| - 1] + [s[|s| - 1]];
      r
  }

  predicate IsDigit(c: char)
  {
    '0' <= c <= '9'
  }

  function DigitChar(d: nat): (c: char)
    requires d < 10
  {
    ('0' as int + d) as char
  }

  /** The decimal numeral JavaScript writes for a non-negative integer. */
  function DecimalString(n: nat): (r: string)
    ensures |r| > 0
    ensures forall i :: 0 <= i < |r| ==> IsDigit(r[i])
  {
    if n < 10 then [DigitChar(n)] else DecimalString(n / 10) + [DigitChar(n % 10)]
  }

  /** The value of a string of decimal digits. */
  function DecimalValue(s: string): nat
    requires forall i :: 0 <= i < |s| ==> IsDigit(s[i])
  {
    if s == [] then 0
    else
      assert IsDigit(s[|s| - 1]);
      DecimalValue(s[..|s| - 1]) * 10 + (s[|s| - 1] as int - '0' as int)
  }

  lemma {:induction false} DecimalRoundTrip(n: nat)
    ensures DecimalValue(DecimalString(n)) == n
  {
    var r := DecimalString(n);
    if n >= 10 {
      DecimalRoundTrip(n / 10);
      assert r[..|r| - 1] == DecimalString(n / 10);
    }
  }
}
