/**
 * String operations shared by the Python and the C# parts of the system:
 * whitespace classes and trimming, splitting and joining on a separator,
 * substring search, ASCII case mapping and decimal rendering of numbers.
 * Strings are sequences of Unicode scalar values, which is what Python's
 * `str` indexes.
 */
module Text {
  import opened Common

  /** The two whitespace classes the system trims with. */
  datatype Charset =
    | Py   // Python's `str.isspace`: what `str.strip()` removes
    | Net  // .NET's `char.IsWhiteSpace`: what `Trim()` removes and `IsNullOrWhiteSpace` tests

  /** Whitespace common to both classes. */
  predicate IsCommonSpace(c: char) {
    c == ' ' || '\t' <= c <= '\r' || c == '\U{85}' || c == '\U{A0}'
    || c == '\U{1680}' || '\U{2000}' <= c <= '\U{200A}' || c == '\U{2028}' || c == '\U{2029}'
    || c == '\U{202F}' || c == '\U{205F}' || c == '\U{3000}'
  }

  /** Python also counts the separators U+001C..U+001F as whitespace; .NET does not. */
  predicate IsSpace(cs: Charset, c: char) {
    IsCommonSpace(c) || (cs == Py && '\U{1C}' <= c <= '\U{1F}')
  }

  // ---------------------------------------------------------------- trimming

  function TrimStart(s: string, cs: Charset): (r: string)
    ensures |r| <= |s|
  {
    if s != [] && IsSpace(cs, s[0]) then TrimStart(s[1..], cs) else s
  }

  function TrimEnd(s: string, cs: Charset): (r: string)
    ensures |r| <= |s|
  {
    if s != [] && IsSpace(cs, s[|s| - 1]) then TrimEnd(s[..|s| - 1], cs) else s
  }

  /** TrimStart removes a prefix of whitespace and stops at a non-space. */
  lemma {:induction false} TrimStartFacts(s: string, cs: Charset)
    ensures var r := TrimStart(s, cs);
      && r == s[|s| - |r|..]
      && (r != [] ==> !IsSpace(cs, r[0]))
      && forall i :: 0 <= i < |s| - |r| ==> IsSpace(cs, s[i])
    decreases |s|
  {
    if s != [] && IsSpace(cs, s[0]) {
      TrimStartFacts(s[1..], cs);
    }
  }

  /** TrimEnd removes a suffix of whitespace and stops at a non-space. */
  lemma {:induction false} TrimEndFacts(s: string, cs: Charset)
    ensures var r := TrimEnd(s, cs);
      && r == s[..|r|]
      && (r != [] ==> !IsSpace(cs, r[|r| - 1]))
      && forall i :: |r| <= i < |s| ==> IsSpace(cs, s[i])
    decreases |s|
  {
    if s != [] && IsSpace(cs, s[|s| - 1]) {
      TrimEndFacts(s[..|s| - 1], cs);
    }
  }

  /** `s` has no removable character at either end. */
  predicate IsTrimmed(s: string, cs: Charset) {
    s == [] || (!IsSpace(cs, s[0]) && !IsSpace(cs, s[|s| - 1]))
  }

  /** Removes leading and trailing whitespace of the class `cs`: Python's
      `str.strip()` for `Py`, .NET's `string.Trim()` for `Net`. */
  function Trim(s: string, cs: Charset): (r: string)
    ensures |r| <= |s|
  {
    TrimEnd(TrimStart(s, cs), cs)
  }

  /** Trimming leaves no removable character at either end. */
  lemma TrimTrimmed(s: string, cs: Charset)
    ensures IsTrimmed(Trim(s, cs), cs)
  {
    TrimStartFacts(s, cs);
    TrimEndFacts(TrimStart(s, cs), cs);
  }

  /** The trimmed string is a slice of the original, and it is empty exactly
      when the original is all whitespace. */
  lemma TrimIsSlice(s: string, cs: Charset)
    ensures var r := Trim(s, cs); var k := |s| - |TrimStart(s, cs)|;
      k + |r| <= |s| && r == s[k..k + |r|]
  {
    var t := TrimStart(s, cs);
    var r := TrimEnd(t, cs);
    var k := |s| - |t|;
    TrimStartFacts(s, cs);
    TrimEndFacts(t, cs);
    assert t == s[k..];
    assert r == t[..|r|];
    assert s[k..][..|r|] == s[k..k + |r|];
  }

  /** The trimmed string is empty exactly when the original is all whitespace. */
  lemma TrimEmpty(s: string, cs: Charset)
    ensures Trim(s, cs) == [] <==> forall i :: 0 <= i < |s| ==> IsSpace(cs, s[i])
  {
    var t := TrimStart(s, cs);
    TrimStartFacts(s, cs);
    TrimEndFacts(t, cs);
    if Trim(s, cs) == [] {
      assert t == [];
    }
  }

  /** Python's `str.strip()` with no argument. */
  function Strip(s: string): string { Trim(s, Py) }

  lemma TrimOfTrimmed(s: string, cs: Charset)
    requires IsTrimmed(s, cs)
    ensures Trim(s, cs) == s
  {
  }

  /** Trimming `head + " " + t` keeps the head and the space when `t` is not
      empty, and drops the trailing space otherwise. */
  lemma TrimSpaced(head: string, t: string, cs: Charset)
    requires head != [] && !IsSpace(cs, head[0]) && !IsSpace(cs, head[|head| - 1])
    requires IsTrimmed(t, cs)
    ensures Trim(head + " " + t, cs) == if t == [] then head else head + " " + t
  {
    var s := head + " " + t;
    assert TrimStart(s, cs) == s;
    if t == [] {
      assert s[..|s| - 1] == head;
      assert TrimEnd(s, cs) == TrimEnd(head, cs);
    }
  }

  /** Trimming `" " + t` gives back `t` when `t` is already trimmed. */
  lemma TrimLeadingSpace(t: string, cs: Charset)
    requires IsTrimmed(t, cs)
    ensures Trim(" " + t, cs) == t
  {
    assert (" " + t)[1..] == t;
    assert TrimStart(" " + t, cs) == TrimStart(t, cs) == t;
    assert TrimEnd(t, cs) == t;
  }

  // --------------------------------------------------- searching a character

  /** C#'s `IndexOf(char)`, Python's `str.find` on one character. */
  function IndexOf(s: string, c: char): (r: int)
    ensures r == -1 <==> c !in s
    ensures r != -1 ==> 0 <= r < |s| && s[r] == c && c !in s[..r]
  {
    if s == [] then -1
    else if s[0] == c then 0
    else
      var k := IndexOf(s[1..], c);
      if k == -1 then -1
      else
        assert s[..k + 1] == [s[0]] + s[1..][..k];
        k + 1
  }

  /** C#'s `LastIndexOf(char)`. */
  function LastIndexOf(s: string, c: char): (r: int)
    ensures r == -1 <==> c !in s
    ensures r != -1 ==> 0 <= r < |s| && s[r] == c && c !in s[r + 1..]
  {
    if s == [] then -1
    else if s[|s| - 1] == c then |s| - 1
    else
      assert s == s[..|s| - 1] + [s[|s| - 1]];
      LastIndexOf(s[..|s| - 1], c)
  }

  lemma IndexOfJoined(a: string, c: char, b: string)
    requires c !in a
    ensures IndexOf(a + [c] + b, c) == |a|
  {
    var s := a + [c] + b;
    assert s[|a|] == c;
    assert s[..|a|] == a;
  }

  /** The text after the first `c`: Python's `s.split(c, 1)[1]` when `c` occurs. */
  function AfterFirst(s: string, c: char): (r: string)
    requires c in s
    ensures |r| < |s| && r == s[|s| - |r|..] && s[|s| - |r| - 1] == c
    ensures c !in s[..|s| - |r| - 1]
  {
    s[IndexOf(s, c) + 1..]
  }

  // ------------------------------------------------- splitting and joining

  /** Python's `s.split(c)`: always at least one piece, no piece holds `c`. */
  function Split(s: string, c: char): (r: seq<string>)
    ensures |r| >= 1
    ensures forall i :: 0 <= i < |r| ==> c !in r[i]
    decreases |s|
  {
    var i := IndexOf(s, c);
    if i == -1 then [s] else [s[..i]] + Split(s[i + 1..], c)
  }

  /** Python's `c.join(parts)`. */
  function Join(parts: seq<string>, c: char): string
  {
    if parts == [] then ""
    else if |parts| == 1 then parts[0]
    else parts[0] + [c] + Join(parts[1..], c)
  }

  /** Joining and then splitting returns the parts when none holds the separator. */
  lemma {:induction false} SplitJoin(parts: seq<string>, c: char)
    requires parts != []
    requires forall i :: 0 <= i < |parts| ==> c !in parts[i]
    ensures Split(Join(parts, c), c) == parts
  {
    if |parts| == 1 {
      assert c !in parts[0];
    } else {
      var p := parts[0];
      var rest := Join(parts[1..], c);
      var s := p + [c] + rest;
      assert Join(parts, c) == s;
      assert c !in p;
      IndexOfJoined(p, c, rest);
      assert s[..|p|] == p;
      assert s[|p| + 1..] == rest;
      assert Split(s, c) == [p] + Split(rest, c);
      SplitJoin(parts[1..], c);
      assert parts == [p] + parts[1..];
    }
  }

  /** Splitting and then joining gives back the string. */
  lemma {:induction false} JoinSplit(s: string, c: char)
    ensures Join(Split(s, c), c) == s
    decreases |s|
  {
    var i := IndexOf(s, c);
    if i != -1 {
      JoinSplit(s[i + 1..], c);
      JoinCons(s[..i], Split(s[i + 1..], c), c);
      SplitAround(s, i);
    }
  }

  lemma JoinCons(a: string, tail: seq<string>, c: char)
    requires tail != []
    ensures Join([a] + tail, c) == a + [c] + Join(tail, c)
  {
    assert ([a] + tail)[1..] == tail;
  }

  lemma SplitAround(s: string, i: int)
    requires 0 <= i < |s|
    ensures s == s[..i] + [s[i]] + s[i + 1..]
  {
  }

  /** `sep.join(parts)` for a string separator. */
  function JoinWith(parts: seq<string>, sep: string): string
  {
    if parts == [] then ""
    else if |parts| == 1 then parts[0]
    else parts[0] + sep + JoinWith(parts[1..], sep)
  }

  // -------------------------------------------------------------- substrings

  predicate StartsWith(s: string, prefix: string) {
    |prefix| <= |s| && s[..|prefix|] == prefix
  }

  /** Python's `sub in s`. */
  predicate Contains(s: string, sub: string)
    decreases |s|
  {
    StartsWith(s, sub) || (s != [] && Contains(s[1..], sub))
  }

  lemma {:induction false} ContainsAt(s: string, sub: string, k: nat)
    requires k + |sub| <= |s| && s[k..k + |sub|] == sub
    ensures Contains(s, sub)
    decreases k
  {
    if k > 0 {
      assert s[1..][k - 1..k - 1 + |sub|] == s[k..k + |sub|];
      ContainsAt(s[1..], sub, k - 1);
    }
  }

  // ------------------------------------------------------ ASCII case mapping

  function UpperChar(c: char): char {
    if 'a' <= c <= 'z' then (c as int - 32) as char else c
  }

  function LowerChar(c: char): char {
    if 'A' <= c <= 'Z' then (c as int + 32) as char else c
  }

  /** `str.upper()` restricted to ASCII letters. */
  function Upper(s: string): (r: string)
    ensures |r| == |s| && forall i :: 0 <= i < |s| ==> r[i] == UpperChar(s[i])
  {
    seq(|s|, i requires 0 <= i < |s| => UpperChar(s[i]))
  }

  /** `str.lower()` restricted to ASCII letters. */
  function Lower(s: string): (r: string)
    ensures |r| == |s| && forall i :: 0 <= i < |s| ==> r[i] == LowerChar(s[i])
  {
    seq(|s|, i requires 0 <= i < |s| => LowerChar(s[i]))
  }

  // ------------------------------------------------------- decimal numbers

  predicate IsDigit(c: char) { '0' <= c <= '9' }

  function DigitChar(d: nat): (c: char)
    requires d < 10
    ensures IsDigit(c) && c as int - '0' as int == d
  {
    ('0' as int + d) as char
  }

  /** Python's `str(n)` / `f"{n}"` for a natural number. */
  function NatToString(n: nat): (r: string)
    ensures r != [] && forall i :: 0 <= i < |r| ==> IsDigit(r[i])
    decreases n
  {
    if n < 10 then [DigitChar(n)] else NatToString(n / 10) + [DigitChar(n % 10)]
  }

  /** The number a string of decimal digits denotes: the inverse of NatToString. */
  function DigitsValue(s: string): nat
    requires forall i :: 0 <= i < |s| ==> IsDigit(s[i])
  {
    if s == [] then 0
    else
      assert IsDigit(s[|s| - 1]);
      DigitsValue(s[..|s| - 1]) * 10 + (s[|s| - 1] as int - '0' as int)
  }

  lemma {:induction false} DigitsValueOfNatToString(n: nat)
    ensures DigitsValue(NatToString(n)) == n
    decreases n
  {
    if n >= 10 {
      var s := NatToString(n);
      assert s[..|s| - 1] == NatToString(n / 10);
      DigitsValueOfNatToString(n / 10);
    }
  }

  /** Distinct numbers render to distinct strings. */
  lemma NatToStringInjective(a: nat, b: nat)
    requires a != b
    ensures NatToString(a) != NatToString(b)
  {
    DigitsValueOfNatToString(a);
    DigitsValueOfNatToString(b);
  }

  /** Python's `str(i)` and C#'s `int.ToString()` for any integer. */
  function IntToString(i: int): string {
    if i < 0 then "-" + NatToString(-i) else NatToString(i)
  }

  // ------------------------------------------ Python slicing and rfind

  /** How Python normalises a slice bound `i` against a length `n`: a negative
      bound counts from the end, and the result is clamped into `0..n`. */
  function SliceIndex(i: int, n: nat): (r: nat)
    ensures r <= n
    ensures 0 <= i <= n ==> r == i
  {
    if i < 0 then (if i + n < 0 then 0 else i + n) else if i > n then n else i
  }

  /** Python's `s[i:j]`. */
  function PySlice<T>(s: seq<T>, i: int, j: int): (r: seq<T>)
    ensures i <= j ==> |r| <= j - i
    ensures 0 <= i <= j <= |s| ==> r == s[i..j]
  {
    var a := SliceIndex(i, |s|);
    var b := SliceIndex(j, |s|);
    if a < b then s[a..b] else []
  }

  /** The last index of `c` in `s[lo..hi]`, or -1. */
  function LastIn(s: string, c: char, lo: nat, hi: nat): (r: int)
    requires hi <= |s|
    ensures r == -1 || (lo <= r < hi && s[r] == c)
    decreases hi
  {
    if hi <= lo then -1
    else if s[hi - 1] == c then hi - 1
    else LastIn(s, c, lo, hi - 1)
  }

  /** `LastIn` misses no later occurrence: none after the one found, and none
      at all when it answers -1. */
  lemma {:induction false} LastInFacts(s: string, c: char, lo: nat, hi: nat)
    requires hi <= |s|
    ensures LastIn(s, c, lo, hi) == -1 ==> forall k :: lo <= k < hi ==> s[k] != c
    ensures LastIn(s, c, lo, hi) != -1 ==> forall k :: LastIn(s, c, lo, hi) < k < hi ==> s[k] != c
    decreases hi
  {
    if lo < hi && s[hi - 1] != c {
      LastInFacts(s, c, lo, hi - 1);
    }
  }

  /** An occurrence at `k` inside the range is found, or a later one is. */
  lemma LastInFinds(s: string, c: char, lo: nat, hi: nat, k: nat)
    requires hi <= |s| && lo <= k < hi && s[k] == c
    ensures k <= LastIn(s, c, lo, hi)
  {
    LastInFacts(s, c, lo, hi);
  }

  /** Python's `s.rfind(c, i, j)` for one character: the bounds are
      normalised as for a slice. */
  function RFind(s: string, c: char, i: int, j: int): (r: int)
    ensures var lo, hi := SliceIndex(i, |s|), SliceIndex(j, |s|);
      && (r == -1 <==> forall k :: lo <= k < hi ==> s[k] != c)
      && (r != -1 ==> lo <= r < hi && s[r] == c && forall k :: r < k < hi ==> s[k] != c)
  {
    LastInFacts(s, c, SliceIndex(i, |s|), SliceIndex(j, |s|));
    LastIn(s, c, SliceIndex(i, |s|), SliceIndex(j, |s|))
  }

  /** Python's `s[:n]` for `n >= 0`; a negative `n` gives the empty sequence. */
  function Take<T>(s: seq<T>, n: int): (r: seq<T>)
    ensures |r| == if n <= 0 then 0 else Min(n, |s|)
    ensures r == s[..|r|]
  {
    if n <= 0 then [] else if n >= |s| then s else s[..n]
  }
}
