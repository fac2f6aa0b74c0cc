/**
 * The Python string operations the source relies on, over `string` (`seq<char>`):
 * `str.strip()`, `startswith`/`endswith`, substring `in`, ASCII `lower()`,
 * `str.split(sep)` and `sep.join(...)`, and the decimal conversions `str(int)`
 * and `int(str)`.
 */
module Text {
  import opened Optional

  /** Python's `str.isspace()` for one character: the characters `str.strip()` removes. */
  predicate IsSpace(c: char)
  {
    if c <= ' ' then '\t' <= c <= '\r' || '\U{001C}' <= c
    else '\U{0085}' <= c && IsWideSpace(c)
  }

  /** The whitespace characters beyond ASCII. */
  predicate IsWideSpace(c: char)
  {
    || c == '\U{0085}' || c == '\U{00A0}' || c == '\U{1680}'
    || ('\U{2000}' <= c <= '\U{200A}')
    || c == '\U{2028}' || c == '\U{2029}' || c == '\U{202F}' || c == '\U{205F}' || c == '\U{3000}'
  }

  /** No leading and no trailing whitespace. */
  predicate IsTrimmed(s: string)
  {
    s == [] || (!IsSpace(s[0]) && !IsSpace(s[|s| - 1]))
  }

  /** Every character is whitespace. */
  predicate AllSpace(s: string)
  {
    forall i :: 0 <= i < |s| ==> IsSpace(s[i])
  }

  /** `s.lstrip()`: drops the leading whitespace and nothing else. */
  function TrimStart(s: string): (r: string)
    ensures |r| <= |s| && r == s[|s| - |r|..]
    ensures r == [] || !IsSpace(r[0])
    ensures AllSpace(s[..|s| - |r|])
  {
    if s != [] && IsSpace(s[0]) then
      var r := TrimStart(s[1..]);
      assert s[1..][|s| - 1 - |r|..] == s[|s| - |r|..];
      SpaceHead(s, |s| - |r|);
      r
    else s
  }

  /** `s.rstrip()`: drops the trailing whitespace and nothing else. */
  function TrimEnd(s: string): (r: string)
    ensures |r| <= |s| && r == s[..|r|]
    ensures r == [] || !IsSpace(r[|r| - 1])
    ensures AllSpace(s[|r|..])
  {
    if s != [] && IsSpace(s[|s| - 1]) then
      var r := TrimEnd(s[..|s| - 1]);
      SpaceTail(s, |r|);
      r
    else s
  }

  /** A whitespace character followed by a run of whitespace is a run of whitespace. */
  lemma SpaceHead(s: string, k: nat)
    requires 0 < k <= |s| && IsSpace(s[0])
    requires AllSpace(s[1..][..k - 1])
    ensures AllSpace(s[..k])
  {
    forall i | 0 < i < k
      ensures IsSpace(s[..k][i])
    {
      assert s[..k][i] == s[1..][..k - 1][i - 1];
    }
  }

  /** A run of whitespace followed by a whitespace character is a run of whitespace. */
  lemma SpaceTail(s: string, k: nat)
    requires k < |s| && IsSpace(s[|s| - 1])
    requires AllSpace(s[..|s| - 1][k..])
    ensures AllSpace(s[k..])
  {
    forall i | 0 <= i < |s| - 1 - k
      ensures IsSpace(s[k..][i])
    {
      assert s[k..][i] == s[..|s| - 1][k..][i];
    }
  }

  /**
   * `s.strip()`: `s` is whitespace, then the result, then whitespace, and the
   * result neither starts nor ends with whitespace.
   */
  function Strip(s: string): (r: string)
    ensures |r| <= |s|
    ensures IsTrimmed(r)
    ensures Contains(s, r)
    ensures exists i | 0 <= i <= |s| - |r| :: StrippedAt(s, r, i)
  {
    var t := TrimStart(s);
    var r := TrimEnd(t);
    PrefixOfSuffix(s, t, r);
    TrimmedEnds(t, r);
    SpaceAround(s, t, r);
    r
  }

  /** `s` is `r` at index `i` with only whitespace before and after it. */
  predicate StrippedAt(s: string, r: string, i: int)
  {
    OccursAt(s, r, i) && AllSpace(s[..i]) && AllSpace(s[i + |r|..])
  }

  /** Whitespace removed from the front of `s` and then from the back of the rest surrounds what is left. */
  lemma SpaceAround(s: string, t: string, r: string)
    requires |t| <= |s| && t == s[|s| - |t|..] && AllSpace(s[..|s| - |t|])
    requires |r| <= |t| && r == t[..|r|] && AllSpace(t[|r|..])
    requires OccursAt(s, r, |s| - |t|)
    ensures StrippedAt(s, r, |s| - |t|)
  {
    var i := |s| - |t|;
    assert s[i + |r|..] == t[|r|..];
  }

  /** A prefix of a text without leading whitespace, itself without trailing whitespace, is trimmed. */
  lemma TrimmedEnds(t: string, r: string)
    requires t == [] || !IsSpace(t[0])
    requires |r| <= |t| && r == t[..|r|]
    requires r == [] || !IsSpace(r[|r| - 1])
    ensures IsTrimmed(r)
  {
    if r != [] {
      assert r[0] == t[0];
    }
  }

  /** A prefix of a suffix of `s` occurs in `s` where the suffix starts. */
  lemma PrefixOfSuffix(s: string, t: string, r: string)
    requires |t| <= |s| && t == s[|s| - |t|..]
    requires |r| <= |t| && r == t[..|r|]
    ensures OccursAt(s, r, |s| - |t|)
  {
    assert s[|s| - |t|..|s| - |t| + |r|] == t[..|r|];
  }

  /** Stripping a string that has no surrounding whitespace leaves it as it is. */
  lemma StripTrimmed(s: string)
    requires IsTrimmed(s)
    ensures Strip(s) == s
  {
  }

  /** Stripping twice is stripping once. */
  lemma StripIdempotent(s: string)
    ensures Strip(Strip(s)) == Strip(s)
  {
    StripTrimmed(Strip(s));
  }

  predicate StartsWith(s: string, prefix: string)
  {
    |prefix| <= |s| && s[..|prefix|] == prefix
  }

  predicate EndsWith(s: string, suffix: string)
  {
    |suffix| <= |s| && s[|s| - |suffix|..] == suffix
  }

  /** `sub` occurs in `s` starting at index `i`. */
  predicate OccursAt(s: string, sub: string, i: int)
  {
    0 <= i && i + |sub| <= |s| && s[i..i + |sub|] == sub
  }

  /** The two halves of a concatenation are its prefix and its suffix. */
  lemma ConcatEnds(a: string, b: string)
    ensures StartsWith(a + b, a) && EndsWith(a + b, b)
  {
    assert (a + b)[..|a|] == a;
    assert (a + b)[|a|..] == b;
  }

  /** A string that starts with `a + b` starts with `a`. */
  lemma StartsWithPrefix(s: string, a: string, b: string)
    requires StartsWith(s, a + b)
    ensures StartsWith(s, a)
  {
    assert s[..|a|] == (a + b)[..|a|];
  }

  /** Python's `sub in s`. */
  predicate Contains(s: string, sub: string)
  {
    exists i | 0 <= i <= |s| - |sub| :: OccursAt(s, sub, i)
  }

  /** `str.lower()` on ASCII letters; other characters are kept. */
  function Lower(s: string): (r: string)
    ensures |r| == |s|
    ensures forall i :: 0 <= i < |s| ==> r[i] == LowerChar(s[i])
  {
    seq(|s|, i requires 0 <= i < |s| => LowerChar(s[i]))
  }

  function LowerChar(c: char): (r: char)
    ensures 'A' <= c <= 'Z' ==> r as int == c as int + 32
    ensures !('A' <= c <= 'Z') ==> r == c
  {
    if 'A' <= c <= 'Z' then (c as int + 32) as char else c
  }

  /** The index of the first occurrence of `sep` in `s` at or after `k`, if any. */
  function IndexFrom(s: string, sep: string, k: nat): (r: Option<nat>)
    requires |sep| > 0 && k <= |s|
    ensures r.Some? ==> k <= r.value && OccursAt(s, sep, r.value)
    ensures r.Some? ==> forall j :: k <= j < r.value ==> !OccursAt(s, sep, j)
    ensures r.None? ==> forall j :: k <= j ==> !OccursAt(s, sep, j)
    decreases |s| - k
  {
    if k + |sep| > |s| then None
    else if OccursAt(s, sep, k) then Some(k)
    else IndexFrom(s, sep, k + 1)
  }

  /** Python's `s.split(sep)`: the pieces between non-overlapping occurrences, left to right. */
  function Split(s: string, sep: string): (parts: seq<string>)
    requires |sep| > 0
    ensures |parts| >= 1
    decreases |s|
  {
    match IndexFrom(s, sep, 0)
    case None => [s]
    case Some(i) => [s[..i]] + Split(s[i + |sep|..], sep)
  }

  /** No piece of a split contains the separator. */
  lemma {:induction false} SplitPartsFree(s: string, sep: string)
    requires |sep| > 0
    ensures forall k :: 0 <= k < |Split(s, sep)| ==> !Contains(Split(s, sep)[k], sep)
    decreases |s|
  {
    match IndexFrom(s, sep, 0)
    case None =>
    case Some(i) =>
      var head := s[..i];
      forall j | 0 <= j <= |head| - |sep| ensures !OccursAt(head, sep, j) {
        assert j < i && !OccursAt(s, sep, j);
        assert head[j..j + |sep|] == s[j..j + |sep|];
      }
      SplitPartsFree(s[i + |sep|..], sep);
  }

  /** Python's `"".join(parts)`. */
  function Concat(parts: seq<string>): (r: string)
    ensures |parts| == 1 ==> r == parts[0]
  {
    if parts == [] then "" else Concat(parts[..|parts| - 1]) + parts[|parts| - 1]
  }

  /** The set of elements of a sequence. */
  function Elems<T>(s: seq<T>): set<T>
  {
    set x | x in s
  }

  /** No element occurs twice. */
  predicate Distinct<T(==)>(s: seq<T>)
  {
    forall i, j :: 0 <= i < j < |s| ==> s[i] != s[j]
  }

  /** A sequence without repetitions has as many elements as its set. */
  lemma {:induction false} DistinctCard<T>(s: seq<T>)
    requires Distinct(s)
    ensures |Elems(s)| == |s|
  {
    if s != [] {
      var init := s[..|s| - 1];
      DistinctCard(init);
      assert Elems(s) == Elems(init) + {s[|s| - 1]};
      assert s[|s| - 1] !in Elems(init);
    }
  }

  /** Python's `sep.join(parts)`. */
  function Join(parts: seq<string>, sep: string): string
  {
    if |parts| == 0 then ""
    else if |parts| == 1 then parts[0]
    else parts[0] + sep + Join(parts[1..], sep)
  }

  lemma JoinPair(a: string, b: string, sep: string)
    ensures Join([a, b], sep) == a + sep + b
  {
    assert [a, b][1..] == [b];
  }

  /** Splitting and joining back with the same separator gives the original text. */
  lemma {:induction false} JoinSplit(s: string, sep: string)
    requires |sep| > 0
    ensures Join(Split(s, sep), sep) == s
    decreases |s|
  {
    match IndexFrom(s, sep, 0)
    case None =>
    case Some(i) =>
      var rest := s[i + |sep|..];
      var tail := Split(rest, sep);
      JoinSplit(rest, sep);
      assert Split(s, sep) == [s[..i]] + tail;
      calc {
        Join(Split(s, sep), sep);
        s[..i] + sep + Join(tail, sep);
        s[..i] + sep + rest;
        { assert s[i..i + |sep|] == sep; }
        s;
      }
  }

  /** Joining can be cut at any inner piece boundary. */
  lemma {:induction false} JoinAt(parts: seq<string>, sep: string, k: nat)
    requires 0 < k < |parts|
    ensures Join(parts, sep) == Join(parts[..k], sep) + sep + Join(parts[k..], sep)
    decreases k
  {
    if k > 1 {
      JoinAt(parts[1..], sep, k - 1);
      assert parts[1..][..k - 1] == parts[1..k];
      assert parts[1..][k - 1..] == parts[k..];
      assert parts[..k][1..] == parts[1..k];
    }
  }

  /** The character for a decimal digit. */
  function DigitChar(d: nat): (c: char)
    requires d < 10
    ensures '0' <= c <= '9' && c as int - '0' as int == d
  {
    (d + '0' as int) as char
  }

  /** Python's `str(n)` for a natural number: its shortest decimal spelling. */
  function NatToString(n: nat): (s: string)
    ensures |s| > 0 && forall i :: 0 <= i < |s| ==> '0' <= s[i] <= '9'
    ensures |s| > 1 ==> s[0] != '0'
  {
    if n < 10 then [DigitChar(n)] else NatToString(n / 10) + [DigitChar(n % 10)]
  }

  /** Python's `str(i)`. */
  function IntToString(i: int): (s: string)
    ensures |s| > 0
  {
    if i < 0 then "-" + NatToString(-i) else NatToString(i)
  }

  /** The value of a string of ASCII decimal digits. */
  function DigitsValue(s: string): nat
    requires forall i :: 0 <= i < |s| ==> '0' <= s[i] <= '9'
  {
    if s == [] then 0 else DigitsValue(s[..|s| - 1]) * 10 + (s[|s| - 1] as int - '0' as int)
  }

  predicate AllDigits(s: string)
  {
    |s| > 0 && forall i :: 0 <= i < |s| ==> '0' <= s[i] <= '9'
  }

  /** The text `int` accepts once stripped: digits, optionally after one sign. */
  predicate IntSyntax(t: string)
  {
    AllDigits(t) || (|t| > 0 && (t[0] == '-' || t[0] == '+') && AllDigits(t[1..]))
  }

  /** The value of a stripped integer literal; `None` for any other text. */
  function ParseDecimal(t: string): (r: Option<int>)
    ensures r.Some? <==> IntSyntax(t)
    ensures AllDigits(t) ==> r == Some(DigitsValue(t))
    ensures |t| > 0 && t[0] == '-' && AllDigits(t[1..]) ==> r == Some(-(DigitsValue(t[1..]) as int))
    ensures |t| > 0 && t[0] == '+' && AllDigits(t[1..]) ==> r == Some(DigitsValue(t[1..]))
  {
    if AllDigits(t) then Some(DigitsValue(t))
    else if |t| > 0 && t[0] == '-' && AllDigits(t[1..]) then Some(-(DigitsValue(t[1..]) as int))
    else if |t| > 0 && t[0] == '+' && AllDigits(t[1..]) then Some(DigitsValue(t[1..]))
    else None
  }

  /**
   * The information separators U+001C to U+001F: `str.isspace()` holds for
   * them, but `int()` skips only ASCII space, tab, line feed, vertical tab,
   * form feed and carriage return, after turning every non-ASCII whitespace
   * character into a space. So `int()` refuses any text holding one of them.
   */
  predicate IsInfoSeparator(c: char)
  {
    '\U{001C}' <= c <= '\U{001F}'
  }

  predicate HasInfoSeparator(s: string)
  {
    exists i | 0 <= i < |s| :: IsInfoSeparator(s[i])
  }

  /** A leading information separator is not skipped as whitespace: `int()` refuses the text. */
  lemma InfoSeparatorRefused(s: string)
    ensures ParseInt("\U{001C}" + s) == None
  {
    assert IsInfoSeparator(("\U{001C}" + s)[0]);
  }

  /**
   * Python's `int(s)` for a string: surrounding whitespace, an optional sign and
   * ASCII decimal digits; `None` where Python raises `ValueError`.
   */
  function ParseInt(s: string): (r: Option<int>)
    ensures HasInfoSeparator(s) ==> r == None
    // Otherwise the signed value is the one `ParseDecimal` states.
    ensures !HasInfoSeparator(s) ==> r == ParseDecimal(Strip(s))
    ensures r.Some? <==> !HasInfoSeparator(s) && IntSyntax(Strip(s))
    ensures !HasInfoSeparator(s) && AllDigits(Strip(s)) ==> r == Some(DigitsValue(Strip(s)))
  {
    if HasInfoSeparator(s) then None else ParseDecimal(Strip(s))
  }

  lemma {:induction false} DigitsOfNat(n: nat)
    ensures DigitsValue(NatToString(n)) == n
  {
    if n >= 10 {
      DigitsOfNat(n / 10);
      var s := NatToString(n);
      assert s[..|s| - 1] == NatToString(n / 10);
    }
  }

  /** Digits are not whitespace, so a run of digits is already stripped. */
  lemma DigitsTrimmed(s: string)
    requires AllDigits(s)
    ensures IsTrimmed(s) && IsTrimmed("-" + s)
  {
    assert ("-" + s)[|s|] == s[|s| - 1];
  }

  /** The decimal spelling of `n` reads back as `n`, and with a minus sign in front as `-n`. */
  lemma DecimalOfNat(n: nat)
    ensures ParseDecimal(NatToString(n)) == Some(n)
    ensures ParseDecimal("-" + NatToString(n)) == Some(-(n as int))
  {
    var digits := NatToString(n);
    var s := "-" + digits;
    ConcatEnds("-", digits);
    assert s[0] == '-' && s[1..] == digits;
    DigitsOfNat(n);
  }

  /** `int(str(i)) == i`: reading back a printed integer gives the integer. */
  lemma ParseIntToString(i: int)
    ensures ParseInt(IntToString(i)) == Some(i)
  {
    var n: nat := if i < 0 then -i else i;
    var s := IntToString(i);
    DigitsTrimmed(NatToString(n));
    DigitsPlain(NatToString(n));
    assert IsTrimmed(s) && !HasInfoSeparator(s);
    ParseTrimmed(s);
    DecimalOfNat(n);
  }

  /** Digits, with or without a minus sign in front, hold no information separator. */
  lemma DigitsPlain(d: string)
    requires AllDigits(d)
    ensures !HasInfoSeparator(d) && !HasInfoSeparator("-" + d)
  {
    var s := "-" + d;
    forall j | 0 < j < |s| ensures !IsInfoSeparator(s[j]) {
      assert s[j] == d[j - 1];
    }
  }

  /** Text without surrounding whitespace or information separators is read as it stands. */
  lemma ParseTrimmed(s: string)
    requires IsTrimmed(s) && !HasInfoSeparator(s)
    ensures ParseInt(s) == ParseDecimal(s)
  {
    StripTrimmed(s);
  }

  /** A join of three or more parts ends with the separator and the last two parts. */
  lemma JoinLastTwo(parts: seq<string>, sep: string)
    requires |parts| >= 3
    ensures var n := |parts|;
      Join(parts, sep) == Join(parts[..n - 2], sep) + (sep + (parts[n - 2] + sep + parts[n - 1]))
  {
    var n := |parts|;
    JoinAt(parts, sep, n - 2);
    assert parts[n - 2..] == [parts[n - 2], parts[n - 1]];
    JoinPair(parts[n - 2], parts[n - 1], sep);
    var head := Join(parts[..n - 2], sep);
    var rest := parts[n - 2] + sep + parts[n - 1];
    assert head + sep + rest == head + (sep + rest);
  }
}
