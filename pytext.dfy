/** The string operations of Python that the eBay normalizer relies on:
    `str.lower()`, `str.upper()`, the `in` substring test, `str.replace`,
    `str.split()` with no argument, and the decimal rendering of an `int`.
    Case mapping is modelled on ASCII letters only. */
module PyText {

  /** `c.isspace()`: the characters that `str.split()` with no argument
      treats as separators (bidirectional class WS, B or S, or category Zs). */
  predicate IsSpace(c: char) {
    var n := c as int;
    || n == 0x20 || 0x09 <= n <= 0x0D || 0x1C <= n <= 0x1F
    || n == 0x85 || n == 0xA0 || n == 0x1680 || 0x2000 <= n <= 0x200A
    || n == 0x2028 || n == 0x2029 || n == 0x202F || n == 0x205F || n == 0x3000
  }

  /** The ASCII characters for which `isspace()` holds: space, tab, line
      feed, vertical tab, form feed, carriage return, and the four
      information separators 0x1C-0x1F. */
  const AsciiSpace: string :=
    [' ', '\t', '\n', 11 as char, 12 as char, '\r', 28 as char, 29 as char, 30 as char, 31 as char]

  /** The separators below 0x100: exactly `AsciiSpace` in ASCII, and 0x85
      and 0xA0 in the rest of Latin-1. Letters, digits and `-` never separate. */
  lemma IsSpaceAscii(c: char)
    ensures c as int < 0x80 ==> (IsSpace(c) <==> c in AsciiSpace)
    ensures 0x80 <= c as int < 0x100 ==> (IsSpace(c) <==> c as int == 0x85 || c as int == 0xA0)
    ensures 'a' <= c <= 'z' || 'A' <= c <= 'Z' || '0' <= c <= '9' || c == '-' ==> !IsSpace(c)
  {
  }

  predicate NoSpace(s: string) {
    forall i :: 0 <= i < |s| ==> !IsSpace(s[i])
  }

  predicate AllSpace(s: string) {
    forall i :: 0 <= i < |s| ==> IsSpace(s[i])
  }

  function LowerChar(c: char): char {
    if 'A' <= c <= 'Z' then (c as int + 32) as char else c
  }

  function UpperChar(c: char): char {
    if 'a' <= c <= 'z' then (c as int - 32) as char else c
  }

  /** `s.lower()` */
  function Lower(s: string): string {
    seq(|s|, i requires 0 <= i < |s| => LowerChar(s[i]))
  }

  /** `s.upper()` */
  function Upper(s: string): string {
    seq(|s|, i requires 0 <= i < |s| => UpperChar(s[i]))
  }

  /** `p in s` for two strings: `p` occurs in `s` at some offset. */
  predicate Contains(s: string, p: string) {
    exists i :: 0 <= i <= |s| - |p| && OccursAt(s, p, i)
  }

  predicate OccursAt(s: string, p: string, i: int)
    requires 0 <= i <= |s| - |p|
  {
    s[i..i + |p|] == p
  }

  /** `s.replace("-", " ")` */
  function ReplaceDash(s: string): string {
    seq(|s|, i requires 0 <= i < |s| => if s[i] == '-' then ' ' else s[i])
  }

  /** The length of the longest prefix of `s` that holds no whitespace. */
  function WordLength(s: string): (n: nat)
    ensures n <= |s| && NoSpace(s[..n])
    ensures n < |s| ==> IsSpace(s[n])
  {
    if s == [] || IsSpace(s[0]) then 0 else 1 + WordLength(s[1..])
  }

  /** `s.split()`: the maximal runs of non-whitespace characters, in order. */
  function Split(s: string): seq<string>
    decreases |s|
  {
    if s == [] then []
    else if IsSpace(s[0]) then Split(s[1..])
    else
      var n := WordLength(s);
      [s[..n]] + Split(s[n..])
  }

  /** The characters of `s` that are not whitespace, in order. */
  function NonSpace(s: string): string {
    if s == [] then []
    else (if IsSpace(s[0]) then [] else [s[0]]) + NonSpace(s[1..])
  }

  function Concat(words: seq<string>): string {
    if words == [] then [] else words[0] + Concat(words[1..])
  }

  /** `w` is the first whitespace-separated token of `s`: it follows only
      whitespace and is followed by whitespace or the end of `s`. */
  predicate FirstWord(s: string, w: string) {
    exists k :: 0 <= k <= |s| - |w| && FirstWordAt(s, w, k)
  }

  predicate FirstWordAt(s: string, w: string, k: int)
    requires 0 <= k <= |s| - |w|
  {
    && w != [] && NoSpace(w)
    && AllSpace(s[..k]) && s[k..k + |w|] == w
    && (k + |w| == |s| || IsSpace(s[k + |w|]))
  }

  function Digit(d: int): char
    requires 0 <= d < 10
  {
    "0123456789"[d]
  }

  predicate IsDigits(s: string) {
    forall i :: 0 <= i < |s| ==> '0' <= s[i] <= '9'
  }

  /** The number a string of decimal digits denotes. */
  function DecimalValue(s: string): nat
    requires IsDigits(s)
  {
    if s == [] then 0 else DecimalValue(s[..|s| - 1]) * 10 + (s[|s| - 1] as int - '0' as int)
  }

  /** The decimal digits of `n`, most significant first, without leading zeros. */
  function NatText(n: nat): (r: string)
    ensures r != [] && IsDigits(r)
    ensures DecimalValue(r) == n
    ensures |r| > 1 ==> r[0] != '0'
  {
    if n < 10 then [Digit(n)]
    else
      var r := NatText(n / 10) + [Digit(n % 10)];
      assert r[..|r| - 1] == NatText(n / 10);
      r
  }

  /** `str(i)` for a Python `int`: a minus sign for a negative number, then
      the decimal digits of its magnitude without leading zeros. */
  function IntText(i: int): (r: string)
    ensures r != []
    ensures i < 0 <==> r[0] == '-'
    ensures var digits := if i < 0 then r[1..] else r;
      && digits != [] && IsDigits(digits)
      && DecimalValue(digits) == (if i < 0 then -i else i)
      && (|digits| > 1 ==> digits[0] != '0')
  {
    if i < 0 then "-" + NatText(-i) else NatText(i)
  }

  /** Different integers have different decimal texts. */
  lemma IntTextInjective(i: int, j: int)
    requires IntText(i) == IntText(j)
    ensures i == j
  {
  }

  // ---------------------------------------------------------------------
  // Properties

  /** A text that contains `big` contains every piece of `big`. */
  lemma {:induction false} ContainsPiece(s: string, big: string, small: string, k: nat)
    requires k + |small| <= |big|
    requires big[k..k + |small|] == small
    requires Contains(s, big)
    ensures Contains(s, small)
  {
    var i :| 0 <= i <= |s| - |big| && OccursAt(s, big, i);
    assert s[i..i + |big|] == big;
    forall j | 0 <= j < |small|
      ensures s[i + k + j] == small[j]
    {
      assert small[j] == big[k + j] == s[i..i + |big|][k + j];
    }
    assert s[i + k..i + k + |small|] == small;
    assert OccursAt(s, small, i + k);
  }

  /** Any text containing "renewed" also contains "new". */
  lemma RenewedHasNew(s: string)
    requires Contains(s, "renewed")
    ensures Contains(s, "new")
  {
    assert "renewed"[2..5] == "new";
    ContainsPiece(s, "renewed", "new", 2);
  }

  lemma {:induction false} LowerIdempotent(s: string)
    ensures Lower(Lower(s)) == Lower(s)
  {
    assert forall i :: 0 <= i < |s| ==> LowerChar(LowerChar(s[i])) == LowerChar(s[i]);
  }

  /** Two texts with the same lower-case form have the same length and agree
      on whitespace and dashes position by position. */
  lemma SameLowerShape(s: string, t: string)
    requires Lower(s) == Lower(t)
    ensures |s| == |t|
    ensures forall i :: 0 <= i < |s| ==> LowerChar(s[i]) == LowerChar(t[i])
    ensures forall i :: 0 <= i < |s| ==> (IsSpace(s[i]) <==> IsSpace(t[i]))
    ensures forall i :: 0 <= i < |s| ==> (s[i] == '-' <==> t[i] == '-')
  {
    assert |s| == |Lower(s)| == |Lower(t)| == |t|;
    forall i | 0 <= i < |s|
      ensures LowerChar(s[i]) == LowerChar(t[i])
    {
      assert Lower(s)[i] == Lower(t)[i];
    }
  }

  /** Lowering is blind to case: `s.upper().lower() == s.lower()`. */
  lemma LowerOfUpper(s: string)
    ensures Lower(Upper(s)) == Lower(s)
  {
    assert forall i :: 0 <= i < |s| ==> LowerChar(UpperChar(s[i])) == LowerChar(s[i]);
  }

  /** After `replace("-", " ")` no dash is left. */
  lemma ReplaceDashRemovesDashes(s: string)
    ensures forall i :: 0 <= i < |ReplaceDash(s)| ==> ReplaceDash(s)[i] != '-'
  {
  }

  /** `split()` yields no token exactly when the text is blank. */
  lemma {:induction false} SplitEmptyIffBlank(s: string)
    ensures Split(s) == [] <==> AllSpace(s)
    decreases |s|
  {
    if s != [] && IsSpace(s[0]) {
      SplitEmptyIffBlank(s[1..]);
      assert AllSpace(s) <==> AllSpace(s[1..]) by {
        assert forall i :: 1 <= i < |s| ==> s[i] == s[1..][i - 1];
      }
    }
  }

  /** `split()` drops exactly the whitespace: joining its tokens gives the
      non-whitespace characters of the text, in order. */
  lemma {:induction false} SplitKeepsNonSpace(s: string)
    ensures Concat(Split(s)) == NonSpace(s)
    decreases |s|
  {
    if s != [] {
      if IsSpace(s[0]) {
        SplitKeepsNonSpace(s[1..]);
      } else {
        var n := WordLength(s);
        assert s == s[..n] + s[n..];
        NonSpaceAppend(s[..n], s[n..]);
        NonSpaceOfWord(s[..n]);
        SplitKeepsNonSpace(s[n..]);
        assert Concat(Split(s)) == s[..n] + Concat(Split(s[n..]));
      }
    }
  }

  lemma {:induction false} NonSpaceAppend(a: string, b: string)
    ensures NonSpace(a + b) == NonSpace(a) + NonSpace(b)
  {
    if a == [] {
      assert a + b == b;
    } else {
      assert (a + b)[0] == a[0];
      assert (a + b)[1..] == a[1..] + b;
      NonSpaceAppend(a[1..], b);
    }
  }

  lemma {:induction false} NonSpaceOfWord(a: string)
    requires NoSpace(a)
    ensures NonSpace(a) == a
  {
    if a != [] {
      NonSpaceOfWord(a[1..]);
      assert a == [a[0]] + a[1..];
    }
  }

  /** Every token of `split()` is a non-empty run without whitespace. */
  lemma {:induction false} SplitTokens(s: string)
    ensures forall q :: 0 <= q < |Split(s)| ==> Split(s)[q] != [] && NoSpace(Split(s)[q])
    decreases |s|
  {
    if s != [] {
      if IsSpace(s[0]) {
        SplitTokens(s[1..]);
      } else {
        var n := WordLength(s);
        SplitTokens(s[n..]);
        assert Split(s) == [s[..n]] + Split(s[n..]);
      }
    }
  }

  /** A word found at offset `k` after a leading separator is found at `k + 1`. */
  lemma FirstWordAfterSpace(s: string, w: string, k: nat)
    requires s != [] && IsSpace(s[0])
    requires k <= |s[1..]| - |w| && FirstWordAt(s[1..], w, k)
    ensures FirstWordAt(s, w, k + 1)
  {
    var t := s[1..];
    var lead, word := s[..k + 1], s[k + 1..k + 1 + |w|];
    assert lead == [s[0]] + t[..k];
    assert AllSpace(lead) by {
      forall i | 0 <= i < |lead| ensures IsSpace(lead[i]) {
        if i > 0 { assert lead[i] == t[..k][i - 1]; }
      }
    }
    assert word == w by {
      forall i | 0 <= i < |w| ensures word[i] == w[i] {
        assert word[i] == s[k + 1 + i] == t[k + i] == t[k..k + |w|][i];
      }
    }
    assert k + 1 + |w| < |s| ==> s[k + 1 + |w|] == t[k + |w|];
  }

  /** The first token of `split()` is the first whitespace-separated word. */
  lemma {:induction false} SplitHeadIsFirstWord(s: string)
    requires Split(s) != []
    ensures FirstWord(s, Split(s)[0])
    decreases |s|
  {
    if IsSpace(s[0]) {
      var w := Split(s[1..])[0];
      SplitHeadIsFirstWord(s[1..]);
      var k :| 0 <= k <= |s[1..]| - |w| && FirstWordAt(s[1..], w, k);
      FirstWordAfterSpace(s, w, k);
    } else {
      var n := WordLength(s);
      assert Split(s)[0] == s[..n];
      assert s[0..n] == s[..n];
      assert FirstWordAt(s, s[..n], 0);
    }
  }

  /** Every character of a token of `split()` occurs in the text. */
  lemma {:induction false} SplitCharsFromText(s: string, q: nat, j: nat)
    requires q < |Split(s)| && j < |Split(s)[q]|
    ensures Split(s)[q][j] in s
    decreases |s|
  {
    if IsSpace(s[0]) {
      SplitCharsFromText(s[1..], q, j);
      assert s == [s[0]] + s[1..];
    } else {
      var n := WordLength(s);
      var rest := s[n..];
      assert Split(s) == [s[..n]] + Split(rest);
      if q == 0 {
        assert Split(s)[0][j] == s[j];
      } else {
        assert Split(s)[q] == Split(rest)[q - 1];
        SplitCharsFromText(rest, q - 1, j);
        assert s == s[..n] + rest;
      }
    }
  }

  /** Texts equal up to letter case split into tokens equal up to letter case. */
  lemma {:induction false} SplitIgnoresCase(s: string, t: string)
    requires Lower(s) == Lower(t)
    ensures |Split(s)| == |Split(t)|
    ensures forall q :: 0 <= q < |Split(s)| ==> Lower(Split(s)[q]) == Lower(Split(t)[q])
    decreases |s|
  {
    SameLowerShape(s, t);
    if s != [] {
      if IsSpace(s[0]) {
        LowerSlice(s, t, 1, |s|);
        SplitIgnoresCase(s[1..], t[1..]);
      } else {
        WordLengthIgnoresCase(s, t);
        var n := WordLength(s);
        LowerSlice(s, t, 0, n);
        LowerSlice(s, t, n, |s|);
        SplitIgnoresCase(s[n..], t[n..]);
        assert s[..n] == s[0..n] && t[..n] == t[0..n];
        assert Split(s) == [s[..n]] + Split(s[n..]);
        assert Split(t) == [t[..n]] + Split(t[n..]);
      }
    }
  }

  lemma LowerSlice(s: string, t: string, a: nat, b: nat)
    requires Lower(s) == Lower(t) && a <= b <= |s|
    ensures Lower(s[a..b]) == Lower(t[a..b])
  {
    SameLowerShape(s, t);
  }

  lemma {:induction false} WordLengthIgnoresCase(s: string, t: string)
    requires Lower(s) == Lower(t)
    ensures WordLength(s) == WordLength(t)
    decreases |s|
  {
    SameLowerShape(s, t);
    if s != [] && !IsSpace(s[0]) {
      LowerSlice(s, t, 1, |s|);
      WordLengthIgnoresCase(s[1..], t[1..]);
    }
  }

  /** `replace("-", " ")` keeps two texts that are equal up to case equal up to case. */
  lemma ReplaceDashIgnoresCase(s: string, t: string)
    requires Lower(s) == Lower(t)
    ensures Lower(ReplaceDash(s)) == Lower(ReplaceDash(t))
  {
    SameLowerShape(s, t);
  }

  lemma UpperOfLower(s: string)
    ensures Upper(Lower(s)) == Upper(s)
  {
    assert forall i :: 0 <= i < |s| ==> UpperChar(LowerChar(s[i])) == UpperChar(s[i]);
  }

  /** A word followed by whitespace or the end has its own length as word length. */
  lemma {:induction false} WordLengthOfWord(w: string, rest: string)
    requires NoSpace(w)
    requires rest == [] || IsSpace(rest[0])
    ensures WordLength(w + rest) == |w|
    decreases |w|
  {
    if w != [] {
      assert (w + rest)[1..] == w[1..] + rest;
      WordLengthOfWord(w[1..], rest);
    }
  }

  /** `split()` of a word followed by whitespace or the end begins with that word. */
  lemma SplitWordThenRest(w: string, rest: string)
    requires w != [] && NoSpace(w)
    requires rest == [] || IsSpace(rest[0])
    ensures Split(w + rest) == [w] + Split(rest)
  {
    WordLengthOfWord(w, rest);
    var s := w + rest;
    assert s[..|w|] == w && s[|w|..] == rest;
  }
}
