/**
  Text helpers with the meaning of the Python string operations the analysed
  scripts use (`in`, `find`, `split`, `strip`, `int(...)`, `str(...)` and the
  ordering `sorted` applies to path names). Characters are Unicode scalar
  values; strings are `seq<char>`.
 */
module Strings {
  import opened Wrappers

  // ---------------------------------------------------------------- search

  /** `pre` is a prefix of `s`. */
  predicate IsPrefix(pre: string, s: string) {
    |pre| <= |s| && s[..|pre|] == pre
  }

  /** Python's `pat in s`: `pat` occurs in `s` as a contiguous piece. */
  predicate Contains(s: string, pat: string)
    decreases |s|
  {
    IsPrefix(pat, s) || (s != [] && Contains(s[1..], pat))
  }

  lemma {:induction false} ContainsAt(s: string, pat: string, i: nat)
    requires i + |pat| <= |s| && s[i..i + |pat|] == pat
    ensures Contains(s, pat)
    decreases i
  {
    if i == 0 {
      assert s[..|pat|] == pat;
    } else {
      assert s[1..][i - 1..i - 1 + |pat|] == s[i..i + |pat|];
      ContainsAt(s[1..], pat, i - 1);
    }
  }

  /** Python's `s.find(c)` for a character that occurs: the first position. */
  function IndexOf(s: string, c: char): (r: nat)
    requires c in s
    ensures r < |s| && s[r] == c && c !in s[..r]
  {
    if s[0] == c then 0 else IndexOf(s[1..], c) + 1
  }

  // ---------------------------------------------------------------- split

  /** Python's `s.split(sep)` with a one-character separator. */
  function Split(s: string, sep: char): (r: seq<string>)
    ensures |r| >= 1
    decreases |s|
  {
    if sep !in s then [s]
    else
      var i := IndexOf(s, sep);
      [s[..i]] + Split(s[i + 1..], sep)
  }

  /** Python's `sep.join(parts)`. */
  function Join(parts: seq<string>, sep: char): string
  {
    if |parts| == 0 then ""
    else if |parts| == 1 then parts[0]
    else parts[0] + [sep] + Join(parts[1..], sep)
  }

  /** No piece of a split contains the separator. */
  lemma {:induction false} SplitPiecesFree(s: string, sep: char)
    ensures forall i | 0 <= i < |Split(s, sep)| :: sep !in Split(s, sep)[i]
    decreases |s|
  {
    if sep in s {
      var i := IndexOf(s, sep);
      SplitPiecesFree(s[i + 1..], sep);
    }
  }

  /** Joining the pieces of a split gives the text back. */
  lemma {:induction false} SplitJoin(s: string, sep: char)
    ensures Join(Split(s, sep), sep) == s
    decreases |s|
  {
    if sep in s {
      var i := IndexOf(s, sep);
      var rest := Split(s[i + 1..], sep);
      SplitJoin(s[i + 1..], sep);
      assert Split(s, sep) == [s[..i]] + rest;
      assert Join(Split(s, sep), sep) == s[..i] + [sep] + Join(rest, sep);
      assert s == s[..i] + [sep] + s[i + 1..];
    }
  }

  /** Splitting a separator-free head followed by the separator peels the head off. */
  lemma SplitCons(head: string, sep: char, tail: string)
    requires sep !in head
    ensures Split(head + [sep] + tail, sep) == [head] + Split(tail, sep)
  {
    var s := head + [sep] + tail;
    assert s[..|head|] == head && s[|head|] == sep;
    var i := IndexOf(s, sep);
    assert s[..i] == head && s[i + 1..] == tail;
  }

  /** Splitting the join of separator-free pieces gives the pieces back. */
  lemma {:induction false} JoinSplit(parts: seq<string>, sep: char)
    requires |parts| >= 1
    requires forall i | 0 <= i < |parts| :: sep !in parts[i]
    ensures Split(Join(parts, sep), sep) == parts
  {
    if |parts| > 1 {
      var rest := parts[1..];
      assert forall i | 0 <= i < |rest| :: rest[i] == parts[i + 1];
      JoinSplit(rest, sep);
      var tail := Join(rest, sep);
      assert Join(parts, sep) == parts[0] + [sep] + tail;
      assert sep !in parts[0];
      SplitCons(parts[0], sep, tail);
      assert [parts[0]] + rest == parts;
    }
  }

  /** Joining one more piece adds the separator and the piece at the end. */
  lemma {:induction false} JoinAppend(parts: seq<string>, w: string, sep: char)
    requires |parts| >= 1
    ensures Join(parts + [w], sep) == Join(parts, sep) + [sep] + w
  {
    if |parts| > 1 {
      assert (parts + [w])[1..] == parts[1..] + [w];
      JoinAppend(parts[1..], w, sep);
    } else {
      assert (parts + [w])[1..] == [w];
    }
  }

  // ---------------------------------------------------------------- whitespace and strip

  /** The ASCII characters Python's `str.isspace` accepts. */
  predicate IsSpace(c: char) {
    c == ' ' || ('\t' <= c <= '\r') || ('\U{1C}' <= c <= '\U{1F}')
  }

  const Whitespace: set<char> := set c: char | c == ' ' || ('\t' <= c <= '\r') || ('\U{1C}' <= c <= '\U{1F}')

  lemma WhitespaceIsSpace(c: char)
    ensures c in Whitespace <==> IsSpace(c)
  {
  }

  /** Python's `s.lstrip(chars)`: the longest prefix made of `chars` removed, and nothing else. */
  function StripLeft(s: string, chars: set<char>): (r: string)
    ensures |r| <= |s| && r == s[|s| - |r|..]
    ensures forall i | 0 <= i < |s| - |r| :: s[i] in chars
    ensures r == [] || r[0] !in chars
    decreases |s|
  {
    if s != [] && s[0] in chars then StripLeft(s[1..], chars) else s
  }

  /** Python's `s.rstrip(chars)`: the longest suffix made of `chars` removed, and nothing else. */
  function StripRight(s: string, chars: set<char>): (r: string)
    ensures |r| <= |s| && r == s[..|r|]
    ensures forall i | |r| <= i < |s| :: s[i] in chars
    ensures r == [] || r[|r| - 1] !in chars
    decreases |s|
  {
    if s != [] && s[|s| - 1] in chars then StripRight(s[..|s| - 1], chars) else s
  }

  /** Python's `s.strip(chars)`. */
  function StripChars(s: string, chars: set<char>): string
  {
    StripRight(StripLeft(s, chars), chars)
  }

  /**
    `r` is the piece of `s` that starts at `p`, and every character of `s`
    before or after that piece is one of `chars`.
   */
  predicate TrimmedAt(s: string, r: string, chars: set<char>, p: nat) {
    && p + |r| <= |s| && s[p..p + |r|] == r
    && (forall i | 0 <= i < p :: s[i] in chars)
    && (forall i | p + |r| <= i < |s| :: s[i] in chars)
  }

  /**
    What `strip(chars)` leaves: a contiguous piece of `s`, with only
    characters of `chars` removed before and after it, and neither of its
    ends in `chars` (so no more could be removed).
   */
  lemma StripCharsEnds(s: string, chars: set<char>)
    ensures exists p: nat :: TrimmedAt(s, StripChars(s, chars), chars, p)
    ensures var r := StripChars(s, chars); r == [] || (r[0] !in chars && r[|r| - 1] !in chars)
  {
    var l := StripLeft(s, chars);
    var r := StripRight(l, chars);
    TrimmedPieces(s, l, r, chars, |s| - |l|);
    EndsKept(l, r, chars);
    assert TrimmedAt(s, StripChars(s, chars), chars, |s| - |l|);
  }

  lemma EndsKept(l: string, r: string, chars: set<char>)
    requires l == [] || l[0] !in chars
    requires |r| <= |l| && r == l[..|r|] && (r == [] || r[|r| - 1] !in chars)
    ensures r == [] || (r[0] !in chars && r[|r| - 1] !in chars)
  {
    if r != [] {
      assert r[0] == l[0];
    }
  }

  lemma TrimmedPieces(s: string, l: string, r: string, chars: set<char>, p: nat)
    requires p <= |s| && l == s[p..] && (forall i | 0 <= i < p :: s[i] in chars)
    requires |r| <= |l| && r == l[..|r|] && (forall i | |r| <= i < |l| :: l[i] in chars)
    ensures TrimmedAt(s, r, chars, p)
  {
    forall i | p + |r| <= i < |s| ensures s[i] in chars {
      assert s[i] == l[i - p];
    }
  }

  /** Python's `s.strip()`: leading and trailing whitespace removed, and nothing else. */
  function Strip(s: string): (r: string)
    ensures exists p: nat :: TrimmedAt(s, r, Whitespace, p)
    ensures r == [] || (r[0] !in Whitespace && r[|r| - 1] !in Whitespace)
  {
    StripCharsEnds(s, Whitespace);
    StripChars(s, Whitespace)
  }

  lemma StripNoEnds(s: string, chars: set<char>)
    requires s == [] || (s[0] !in chars && s[|s| - 1] !in chars)
    ensures StripChars(s, chars) == s
  {
  }

  /** The characters of `s` that are not whitespace, in order. */
  function NonSpace(s: string): string
    decreases |s|
  {
    if s == [] then [] else (if IsSpace(s[0]) then [] else [s[0]]) + NonSpace(s[1..])
  }

  /** The words written one after the other. */
  function Concat(words: seq<string>): string
  {
    if words == [] then [] else words[0] + Concat(words[1..])
  }

  /** A run of non-whitespace characters at the front of `s` is kept whole by `NonSpace`. */
  lemma {:induction false} NonSpaceWord(s: string, n: nat)
    requires n <= |s| && forall c | c in s[..n] :: !IsSpace(c)
    ensures NonSpace(s) == s[..n] + NonSpace(s[n..])
  {
    if n > 0 {
      assert s[1..][..n - 1] == s[1..n];
      assert forall c | c in s[1..][..n - 1] :: c in s[..n];
      NonSpaceWord(s[1..], n - 1);
      assert s[1..][n - 1..] == s[n..];
      assert s[..n] == [s[0]] + s[1..n];
    }
  }

  /**
    Python's `s.split()`: the maximal runs of non-whitespace characters, in
    order. Each word is non-empty and free of whitespace, and the words
    written one after the other are exactly the non-whitespace characters of
    `s`; `SplitAtSpace` and `SplitWord` say where the words break.
   */
  function SplitWhitespace(s: string): (r: seq<string>)
    ensures forall i | 0 <= i < |r| :: r[i] != [] && forall c | c in r[i] :: !IsSpace(c)
    ensures Concat(r) == NonSpace(s)
    decreases |s|
  {
    if s == [] then []
    else if IsSpace(s[0]) then SplitWhitespace(s[1..])
    else
      var n := WordLength(s);
      NonSpaceWord(s, n);
      assert [s[..n]] + SplitWhitespace(s[n..]) != [];
      assert ([s[..n]] + SplitWhitespace(s[n..]))[1..] == SplitWhitespace(s[n..]);
      [s[..n]] + SplitWhitespace(s[n..])
  }

  /** Length of the run of non-whitespace characters that starts `s`. */
  function WordLength(s: string): (n: nat)
    ensures n <= |s|
    ensures forall c | c in s[..n] :: !IsSpace(c)
    ensures n == |s| || IsSpace(s[n])
    ensures s != [] && !IsSpace(s[0]) ==> n > 0
  {
    if s == [] || IsSpace(s[0]) then 0
    else
      var m := WordLength(s[1..]);
      assert s[..m + 1] == [s[0]] + s[1..][..m];
      m + 1
  }

  /** A word does not run past a whitespace character: text after it does not change where it ends. */
  lemma {:induction false} WordLengthStops(a: string, c: char, b: string)
    requires IsSpace(c)
    ensures WordLength(a + [c] + b) == WordLength(a)
    decreases |a|
  {
    if a != [] && !IsSpace(a[0]) {
      assert (a + [c] + b)[1..] == a[1..] + [c] + b;
      WordLengthStops(a[1..], c, b);
    }
  }

  /** A whitespace character splits the text in two: the words of each side, one after the other. */
  lemma {:induction false} SplitAtSpace(a: string, c: char, b: string)
    requires IsSpace(c)
    ensures SplitWhitespace(a + [c] + b) == SplitWhitespace(a) + SplitWhitespace(b)
    decreases |a|
  {
    var s := a + [c] + b;
    if a == [] {
      assert s[1..] == b;
    } else if IsSpace(a[0]) {
      assert s[1..] == a[1..] + [c] + b;
      SplitAtSpace(a[1..], c, b);
    } else {
      var n := WordLength(a);
      WordLengthStops(a, c, b);
      assert s[..n] == a[..n];
      assert s[n..] == a[n..] + [c] + b;
      SplitAtSpace(a[n..], c, b);
    }
  }

  /** Text without whitespace is one word, and nothing but whitespace gives no word. */
  lemma SplitWord(w: string)
    ensures w != [] && (forall c | c in w :: !IsSpace(c)) ==> SplitWhitespace(w) == [w]
    ensures (forall c | c in w :: IsSpace(c)) ==> SplitWhitespace(w) == []
  {
    if w != [] && forall c | c in w :: !IsSpace(c) {
      var n := WordLength(w);
      assert n == |w|;
      assert w[..n] == w && w[n..] == [];
    }
    if forall c | c in w :: IsSpace(c) {
      AllSpaceNoWord(w);
    }
  }

  lemma {:induction false} AllSpaceNoWord(w: string)
    requires forall c | c in w :: IsSpace(c)
    ensures SplitWhitespace(w) == []
    decreases |w|
  {
    if w != [] {
      assert forall c | c in w[1..] :: c in w;
      AllSpaceNoWord(w[1..]);
    }
  }

  // ---------------------------------------------------------------- integers

  predicate IsDigit(c: char) { '0' <= c <= '9' }

  predicate AllDigits(s: string) { forall i | 0 <= i < |s| :: IsDigit(s[i]) }

  function DigitChar(d: nat): (c: char)
    requires d < 10
    ensures IsDigit(c) && c as int - '0' as int == d
  {
    ('0' as int + d) as char
  }

  /** Value of a decimal numeral. */
  function DigitsValue(s: string): nat
    requires AllDigits(s)
  {
    if s == [] then 0 else DigitsValue(s[..|s| - 1]) * 10 + (s[|s| - 1] as int - '0' as int)
  }

  /** Python's `str(n)` for n >= 0. */
  function NatToString(n: nat): (r: string)
    ensures r != [] && AllDigits(r)
  {
    if n < 10 then [DigitChar(n)] else NatToString(n / 10) + [DigitChar(n % 10)]
  }

  /** Python's `str(n)`. */
  function IntToString(n: int): string
  {
    if n < 0 then "-" + NatToString(-n) else NatToString(n)
  }

  /**
    Python's `int(s)` for base-10 text: surrounding whitespace, an optional sign
    and at least one ASCII digit; None stands for the ValueError.
   */
  function ParseInt(s: string): Option<int>
  {
    var t := Strip(s);
    if |t| >= 2 && (t[0] == '-' || t[0] == '+') && AllDigits(t[1..]) then
      var v := DigitsValue(t[1..]) as int;
      Some(if t[0] == '-' then -v else v)
    else if |t| >= 1 && AllDigits(t) then Some(DigitsValue(t))
    else None
  }

  lemma {:induction false} NatToStringValue(n: nat)
    ensures DigitsValue(NatToString(n)) == n
  {
    if n >= 10 {
      NatToStringValue(n / 10);
      var r := NatToString(n);
      assert r[..|r| - 1] == NatToString(n / 10);
    }
  }

  /** `int(str(n)) == n`: the text a counter is kept in reads back as the same number. */
  lemma ParseIntOfString(n: int)
    ensures ParseInt(IntToString(n)) == Some(n)
  {
    var s := IntToString(n);
    var m: nat := if n < 0 then -n else n;
    NatToStringValue(m);
    var digits := NatToString(m);
    assert !IsSpace(digits[|digits| - 1]);
    WhitespaceIsSpace(s[0]);
    WhitespaceIsSpace(s[|s| - 1]);
    StripNoEnds(s, Whitespace);
    if n < 0 {
      assert s[1..] == digits;
    } else {
      assert s == digits;
    }
  }

  // ---------------------------------------------------------------- ordering

  /** Python's `a <= b` on strings: code-point lexicographic order. */
  predicate StrLe(a: string, b: string)
    decreases |a|
  {
    if a == [] then true
    else if b == [] then false
    else if a[0] != b[0] then a[0] < b[0]
    else StrLe(a[1..], b[1..])
  }

  lemma {:induction false} StrLeTotal(a: string, b: string)
    ensures StrLe(a, b) || StrLe(b, a)
    decreases |a|
  {
    if a != [] && b != [] && a[0] == b[0] {
      StrLeTotal(a[1..], b[1..]);
    }
  }

  lemma {:induction false} StrLeTransitive(a: string, b: string, c: string)
    requires StrLe(a, b) && StrLe(b, c)
    ensures StrLe(a, c)
    decreases |a|
  {
    if a != [] && b != [] && c != [] && a[0] == b[0] && b[0] == c[0] {
      StrLeTransitive(a[1..], b[1..], c[1..]);
    }
  }

  lemma {:induction false} StrLeAntisymmetric(a: string, b: string)
    requires StrLe(a, b) && StrLe(b, a)
    ensures a == b
    decreases |a|
  {
    if a != [] && b != [] {
      StrLeAntisymmetric(a[1..], b[1..]);
      assert a == [a[0]] + a[1..] && b == [b[0]] + b[1..];
    }
  }
}
