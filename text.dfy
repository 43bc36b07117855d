/** Character-level helpers on `string`s: decimal digits, ASCII lower-casing,
    removal of one character, and Python's `str.split(sep)`, `str.strip()`
    and `str * n` on the strings the application builds. */
module Text {

  // ---------------------------------------------------------------------
  // Decimal digits
  // ---------------------------------------------------------------------

  predicate IsDigit(c: char) { '0' <= c <= '9' }

  predicate AllDigits(s: string) { forall i :: 0 <= i < |s| ==> IsDigit(s[i]) }

  function DigitChar(d: nat): (c: char)
    requires d < 10
    ensures IsDigit(c)
  {
    (48 + d) as char
  }

  function DigitValue(c: char): (d: nat)
    requires IsDigit(c)
    ensures d < 10 && DigitChar(d) == c
  {
    c as int - 48
  }

  function Pow10(k: nat): (p: nat)
    ensures p >= 1
  {
    if k == 0 then 1 else 10 * Pow10(k - 1)
  }

  /** The decimal numeral of `n`, without leading zeros (Python's `str(n)`). */
  function Decimal(n: nat): (s: string)
    ensures |s| >= 1 && AllDigits(s)
    ensures s[0] == '0' ==> n == 0
    decreases n
  {
    if n < 10 then [DigitChar(n)] else Decimal(n / 10) + [DigitChar(n % 10)]
  }

  /** The value of a string of decimal digits (empty reads as zero). */
  function ParseDecimal(s: string): nat
    requires AllDigits(s)
  {
    if s == [] then 0 else ParseDecimal(s[..|s| - 1]) * 10 + DigitValue(s[|s| - 1])
  }

  lemma {:induction false} ParseDecimalOfDecimal(n: nat)
    ensures ParseDecimal(Decimal(n)) == n
    decreases n
  {
    if n >= 10 {
      var s := Decimal(n);
      assert s[..|s| - 1] == Decimal(n / 10);
      ParseDecimalOfDecimal(n / 10);
    }
  }

  /** A numeral has at most `k` digits exactly when the number is below 10^k. */
  lemma {:induction false} DecimalLengthBound(n: nat, k: nat)
    requires k >= 1
    ensures |Decimal(n)| <= k <==> n < Pow10(k)
    decreases n
  {
    if n >= 10 {
      if k == 1 {
        assert |Decimal(n)| == |Decimal(n / 10)| + 1 >= 2;
      } else {
        DecimalLengthBound(n / 10, k - 1);
      }
    }
  }

  /** Two digits, zero-padded (the `%m` of `strftime`). */
  function TwoDigits(n: nat): (s: string)
    requires n < 100
    ensures |s| == 2 && AllDigits(s) && ParseDecimal(s) == n
  {
    var s := [DigitChar(n / 10), DigitChar(n % 10)];
    assert s[..1] == [DigitChar(n / 10)];
    assert DigitValue(s[0]) == n / 10 && DigitValue(s[1]) == n % 10;
    assert ParseDecimal(s[..1]) == n / 10;
    s
  }

  // ---------------------------------------------------------------------
  // Case and characters
  // ---------------------------------------------------------------------

  predicate IsUpper(c: char) { 'A' <= c <= 'Z' }

  function LowerChar(c: char): (r: char)
    ensures !IsUpper(r)
    ensures !IsUpper(c) ==> r == c
    ensures IsUpper(c) ==> r as int == c as int + 32
  {
    if IsUpper(c) then (c as int + 32) as char else c
  }

  /** `str.lower()`, restricted to the ASCII letters. */
  function Lower(s: string): string
  {
    if s == [] then [] else [LowerChar(s[0])] + Lower(s[1..])
  }

  /** Lower-casing keeps the length and maps each character on its own. */
  lemma {:induction false} LowerSpec(s: string)
    ensures |Lower(s)| == |s|
    ensures forall i :: 0 <= i < |s| ==> Lower(s)[i] == LowerChar(s[i])
  {
    if s != [] {
      LowerSpec(s[1..]);
    }
  }

  lemma {:induction false} LowerConcat(a: string, b: string)
    ensures Lower(a + b) == Lower(a) + Lower(b)
  {
    LowerSpec(a + b);
    LowerSpec(a);
    LowerSpec(b);
    var l, r := Lower(a + b), Lower(a) + Lower(b);
    forall i | 0 <= i < |l| ensures l[i] == r[i] {
      if i < |a| {
        assert (a + b)[i] == a[i];
      } else {
        assert (a + b)[i] == b[i - |a|];
      }
    }
  }

  /** `s` with every occurrence of the character `c` removed. */
  function Remove(s: string, c: char): (r: string)
    ensures c !in r
    ensures multiset(r) == multiset(s)[c := 0]
    ensures |r| <= |s|
  {
    if s == [] then []
    else if s[0] == c then
      assert s == [s[0]] + s[1..];
      Remove(s[1..], c)
    else
      assert s == [s[0]] + s[1..];
      [s[0]] + Remove(s[1..], c)
  }

  lemma {:induction false} RemoveConcat(a: string, b: string, c: char)
    ensures Remove(a + b, c) == Remove(a, c) + Remove(b, c)
    decreases |a|
  {
    if a != [] {
      assert (a + b)[1..] == a[1..] + b;
      RemoveConcat(a[1..], b, c);
    } else {
      assert a + b == b;
    }
  }

  /** Lower-casing and removing a non-letter commute. */
  lemma {:induction false} LowerRemoveCommute(s: string, c: char)
    requires c < 'A'
    ensures Remove(Lower(s), c) == Lower(Remove(s, c))
    decreases |s|
  {
    if s != [] {
      var t := Lower(s);
      assert t == [LowerChar(s[0])] + Lower(s[1..]);
      LowerRemoveCommute(s[1..], c);
      if s[0] == c {
        assert LowerChar(s[0]) == c;
        assert Remove(t, c) == Remove(Lower(s[1..]), c);
        assert Remove(s, c) == Remove(s[1..], c);
      } else {
        assert LowerChar(s[0]) != c;
        assert Remove(t, c) == [LowerChar(s[0])] + Remove(Lower(s[1..]), c);
        assert Remove(s, c) == [s[0]] + Remove(s[1..], c);
        assert Lower([s[0]] + Remove(s[1..], c))[1..] == Lower(Remove(s[1..], c));
      }
    }
  }

  /** The position of the first `c` in `s`, if any (Python's `s.find(c)`). */
  function IndexOf(s: string, c: char): (r: int)
    ensures -1 <= r < |s|
    ensures r == -1 <==> c !in s
    ensures r >= 0 ==> s[r] == c && c !in s[..r]
  {
    if s == [] then -1
    else if s[0] == c then 0
    else
      var k := IndexOf(s[1..], c);
      if k == -1 then -1
      else
        assert s[..k + 1] == [s[0]] + s[1..][..k];
        k + 1
  }

  lemma {:induction false} IndexOfAfterWord(w: string, c: char, t: string)
    requires c !in w
    ensures IndexOf(w + [c] + t, c) == |w|
  {
    var s := w + [c] + t;
    assert s[|w|] == c;
    assert s[..|w|] == w;
  }

  // ---------------------------------------------------------------------
  // Repetition, join, split, strip
  // ---------------------------------------------------------------------

  /** The list `[x] * n`. */
  function Repeat<T>(x: T, n: nat): (r: seq<T>)
    ensures |r| == n
    ensures forall i :: 0 <= i < n ==> r[i] == x
  {
    if n == 0 then [] else [x] + Repeat(x, n - 1)
  }

  /** A slice of the second part of a concatenation, offset by the first part. */
  lemma SliceAfter<T>(a: seq<T>, b: seq<T>, i: nat, j: nat)
    requires i <= j <= |b|
    ensures (a + b)[|a| + i..|a| + j] == b[i..j]
  {
  }

  /** How many times `x` occurs in `s`. */
  function Occurrences<T(==)>(s: seq<T>, x: T): nat
  {
    if s == [] then 0 else (if s[0] == x then 1 else 0) + Occurrences(s[1..], x)
  }

  lemma {:induction false} OccurrencesConcat<T>(a: seq<T>, b: seq<T>, x: T)
    ensures Occurrences(a + b, x) == Occurrences(a, x) + Occurrences(b, x)
  {
    if a != [] {
      assert (a + b)[1..] == a[1..] + b;
      OccurrencesConcat(a[1..], b, x);
    } else {
      assert a + b == b;
    }
  }

  lemma {:induction false} OccurrencesRepeat<T>(x: T, n: nat, y: T)
    ensures Occurrences(Repeat(x, n), y) == if x == y then n else 0
  {
    if n > 0 {
      assert Repeat(x, n)[1..] == Repeat(x, n - 1);
      OccurrencesRepeat(x, n - 1, y);
    }
  }

  /** The string `s * n`. */
  function RepeatString(s: string, n: nat): (r: string)
    ensures |r| == n * |s|
  {
    if n == 0 then [] else s + RepeatString(s, n - 1)
  }

  /** `sep.join(words)` for a one-character separator. */
  function Join(words: seq<string>, sep: char): string
    requires |words| >= 1
  {
    if |words| == 1 then words[0] else words[0] + [sep] + Join(words[1..], sep)
  }

  /** `s.split(sep)` for a one-character separator: every occurrence of `sep`
      separates two (possibly empty) pieces. */
  function Split(s: string, sep: char): (r: seq<string>)
    ensures |r| >= 1
  {
    if s == [] then [[]]
    else if s[0] == sep then [[]] + Split(s[1..], sep)
    else
      var rest := Split(s[1..], sep);
      [[s[0]] + rest[0]] + rest[1..]
  }

  lemma {:induction false} SplitAfterWord(w: string, t: string, sep: char)
    requires sep !in w
    ensures Split(w + t, sep) == [w + Split(t, sep)[0]] + Split(t, sep)[1..]
    decreases |w|
  {
    if w != [] {
      assert (w + t)[0] == w[0] && (w + t)[1..] == w[1..] + t;
      SplitAfterWord(w[1..], t, sep);
      assert [w[0]] + (w[1..] + Split(t, sep)[0]) == w + Split(t, sep)[0];
    } else {
      var r := Split(t, sep);
      assert w + t == t && w + r[0] == r[0];
      assert [r[0]] + r[1..] == r;
    }
  }

  /** Splitting undoes joining when no word contains the separator. */
  lemma {:induction false} SplitJoin(words: seq<string>, sep: char)
    requires |words| >= 1
    requires forall i :: 0 <= i < |words| ==> sep !in words[i]
    ensures Split(Join(words, sep), sep) == words
    decreases |words|
  {
    if |words| == 1 {
      SplitAfterWord(words[0], [], sep);
      assert words[0] + [] == words[0];
      assert Split([], sep) == [[]];
      assert Split(words[0], sep) == [words[0]];
    } else {
      var tail := Join(words[1..], sep);
      SplitJoin(words[1..], sep);
      assert Join(words, sep) == words[0] + ([sep] + tail);
      SplitAfterWord(words[0], [sep] + tail, sep);
      assert ([sep] + tail)[1..] == tail;
      assert Split([sep] + tail, sep) == [[]] + words[1..];
      assert words[0] + [] == words[0];
    }
  }

  /** The characters Python's `str.strip()` removes that can occur here. */
  predicate IsWhitespace(c: char)
  {
    c == ' ' || c == '\t' || c == '\n' || c == '\r' || c == '\U{B}' || c == '\U{C}'
  }

  function StripTrailing(s: string): (r: string)
    ensures |r| <= |s| && r == s[..|r|]
    ensures r != [] ==> !IsWhitespace(r[|r| - 1])
  {
    if s != [] && IsWhitespace(s[|s| - 1]) then StripTrailing(s[..|s| - 1]) else s
  }

  function StripLeading(s: string): (r: string)
    ensures |r| <= |s| && r == s[|s| - |r|..]
    ensures r != [] ==> !IsWhitespace(r[0])
  {
    if s != [] && IsWhitespace(s[0]) then StripLeading(s[1..]) else s
  }

  /** `s.strip()`. */
  function Strip(s: string): string
  {
    StripLeading(StripTrailing(s))
  }

  lemma {:induction false} JoinEnds(words: seq<string>, sep: char)
    requires |words| >= 1 && forall i :: 0 <= i < |words| ==> words[i] != []
    ensures var j := Join(words, sep);
      j != [] && j[0] == words[0][0] && j[|j| - 1] == words[|words| - 1][|words[|words| - 1]| - 1]
    decreases |words|
  {
    if |words| > 1 {
      JoinEnds(words[1..], sep);
    }
  }

  /** `(w + " ") * n` is the words `[w] * n` joined by spaces, then one space. */
  lemma {:induction false} RepeatWithSpace(w: string, n: nat)
    requires n >= 1
    ensures RepeatString(w + " ", n) == Join(Repeat(w, n), ' ') + " "
    decreases n
  {
    if n > 1 {
      RepeatWithSpace(w, n - 1);
      assert Repeat(w, n)[1..] == Repeat(w, n - 1);
    } else {
      assert RepeatString(w + " ", 1) == w + " " + [];
    }
  }

  /** `((w + " ") * n).strip().split(" ")` is `[w] * n` for a word without spaces. */
  lemma RepeatStripSplit(w: string, n: nat)
    requires n >= 1 && w != []
    requires forall i :: 0 <= i < |w| ==> !IsWhitespace(w[i])
    ensures Split(Strip(RepeatString(w + " ", n)), ' ') == Repeat(w, n)
  {
    var words := Repeat(w, n);
    var j := Join(words, ' ');
    RepeatWithSpace(w, n);
    JoinEnds(words, ' ');
    var s := j + " ";
    assert s[..|s| - 1] == j;
    assert StripTrailing(s) == StripTrailing(j);
    assert StripTrailing(j) == j;
    assert StripLeading(j) == j;
    assert ' ' !in w by {
      forall k | 0 <= k < |w| ensures w[k] != ' ' {
        assert !IsWhitespace(w[k]);
      }
    }
    SplitJoin(words, ' ');
  }
}
