/** The string operations the source applies to links, titles and keys:
    `split`, `rsplit`, `strip`, `join`, substring tests, the printable filter
    and `str` of an integer. */
module Strings {
  import opened Wrappers

  /** Index of the first `c` in `s`. */
  function FirstIndex(s: string, c: char): (r: Option<nat>)
    ensures r.Some? ==> r.value < |s| && s[r.value] == c && c !in s[..r.value]
    ensures r.None? <==> c !in s
  {
    if |s| == 0 then None
    else if s[0] == c then Some(0)
    else
      match FirstIndex(s[1..], c)
      case None => None
      case Some(i) =>
        assert s[1..][..i] == s[1..i + 1];
        Some(i + 1)
  }

  /** Index of the last `c` in `s`. */
  function LastIndex(s: string, c: char): (r: Option<nat>)
    ensures r.Some? ==> r.value < |s| && s[r.value] == c && c !in s[r.value + 1..]
    ensures r.None? <==> c !in s
  {
    if |s| == 0 then None
    else if s[|s| - 1] == c then Some(|s| - 1)
    else
      match LastIndex(s[..|s| - 1], c)
      case None => None
      case Some(i) =>
        assert s[i + 1..] == s[..|s| - 1][i + 1..] + [s[|s| - 1]];
        Some(i)
  }

  /** `s.rsplit(c, 1)[-1]` (equally `s.split(c)[-1]`): the text after the last `c`,
      or all of `s` when there is none. */
  function AfterLast(s: string, c: char): (r: string)
    ensures c !in r
    ensures |r| <= |s| && r == s[|s| - |r|..]
    ensures |r| < |s| ==> s[|s| - |r| - 1] == c
    ensures c !in s ==> r == s
  {
    match LastIndex(s, c)
    case None => s
    case Some(i) => s[i + 1..]
  }

  /** `s.split(c)[0]`: the text before the first `c`, or all of `s`. */
  function BeforeFirst(s: string, c: char): (r: string)
    ensures c !in r
    ensures r <= s
    ensures |r| < |s| ==> s[|r|] == c
    ensures c !in s ==> r == s
  {
    match FirstIndex(s, c)
    case None => s
    case Some(i) => s[..i]
  }

  /** `s.split(c, 1)[1]`: the text after the first `c`; `IndexError` when
      `s` has no `c`. */
  function AfterFirst(s: string, c: char): (r: Result<string>)
    ensures r.Ok? <==> c in s
    ensures r.Ok? ==> s == BeforeFirst(s, c) + [c] + r.value
  {
    match FirstIndex(s, c)
    case None => Err(IndexError("list index out of range"))
    case Some(i) =>
      assert s == s[..i] + [c] + s[i + 1..];
      Ok(s[i + 1..])
  }

  /** `s.split(c)[1]`: the field between the first and the second `c`;
      `IndexError` when `s` has no `c`. */
  function SecondField(s: string, c: char): (r: Result<string>)
    ensures r.Ok? <==> c in s
    ensures r.Ok? ==> c !in r.value && BeforeFirst(s, c) + [c] + r.value <= s
  {
    match AfterFirst(s, c)
    case Err(e) => Err(e)
    case Ok(rest) => Ok(BeforeFirst(rest, c))
  }

  /** `s.lstrip(cs)`. */
  function StripLeft(s: string, cs: set<char>): (r: string)
    ensures |r| <= |s| && r == s[|s| - |r|..]
    ensures r != [] ==> r[0] !in cs
    ensures forall k :: 0 <= k < |s| - |r| ==> s[k] in cs
  {
    if s != [] && s[0] in cs then StripLeft(s[1..], cs) else s
  }

  /** `s.rstrip(cs)`. */
  function StripRight(s: string, cs: set<char>): (r: string)
    ensures r <= s
    ensures r != [] ==> r[|r| - 1] !in cs
    ensures forall k :: |r| <= k < |s| ==> s[k] in cs
  {
    if s != [] && s[|s| - 1] in cs then StripRight(s[..|s| - 1], cs) else s
  }

  /** `s.strip(cs)`. */
  function Strip(s: string, cs: set<char>): (r: string)
    ensures r != [] ==> r[0] !in cs && r[|r| - 1] !in cs
  {
    StripRight(StripLeft(s, cs), cs)
  }

  /** The characters of Python's `string.printable`: ASCII 0x20-0x7e and the
      whitespace characters tab, newline, carriage return, vertical tab and
      form feed. */
  predicate Printable(c: char) {
    (' ' <= c <= '~') || c == '\t' || c == '\n' || c == '\r' || c as int == 11 || c as int == 12
  }

  /** `sep.join(parts)`. */
  function Join(sep: string, parts: seq<string>): (r: string)
  {
    if |parts| == 0 then ""
    else if |parts| == 1 then parts[0]
    else parts[0] + sep + Join(sep, parts[1..])
  }

  /** Joining one more part adds the separator and the part at the end. */
  lemma {:induction false} JoinAppend(sep: string, parts: seq<string>, x: string)
    requires parts != []
    ensures Join(sep, parts + [x]) == Join(sep, parts) + sep + x
  {
    if |parts| > 1 {
      assert (parts + [x])[1..] == parts[1..] + [x];
      JoinAppend(sep, parts[1..], x);
    }
  }

  /** Concatenation of a sequence of strings. */
  function Concat(parts: seq<string>): string
  {
    if |parts| == 0 then "" else parts[0] + Concat(parts[1..])
  }

  /** Each part prefixed with `sep`. */
  function PrefixEach(sep: string, parts: seq<string>): (r: seq<string>)
    ensures |r| == |parts|
    ensures forall i :: 0 <= i < |parts| ==> r[i] == sep + parts[i]
  {
    if |parts| == 0 then [] else [sep + parts[0]] + PrefixEach(sep, parts[1..])
  }

  /** `sep + sep.join(parts)` is `sep` in front of every part. */
  lemma {:induction false} JoinPrefixed(sep: string, parts: seq<string>)
    requires |parts| > 0
    ensures sep + Join(sep, parts) == Concat(PrefixEach(sep, parts))
  {
    if |parts| == 1 {
      assert Concat(PrefixEach(sep, parts)) == sep + parts[0] + Concat([]);
    } else {
      JoinPrefixed(sep, parts[1..]);
      calc {
        sep + Join(sep, parts);
        sep + (parts[0] + sep + Join(sep, parts[1..]));
        (sep + parts[0]) + (sep + Join(sep, parts[1..]));
        (sep + parts[0]) + Concat(PrefixEach(sep, parts[1..]));
      }
    }
  }

  /** `sub in s` for strings. */
  predicate Contains(s: string, sub: string) {
    sub <= s || (s != [] && Contains(s[1..], sub))
  }

  function DigitChar(d: nat): (c: char)
    requires d < 10
    ensures '0' <= c <= '9'
  {
    "0123456789"[d]
  }

  /** `str(n)` for a natural number. */
  function NatToString(n: nat): (r: string)
    ensures |r| > 0
    ensures forall k :: 0 <= k < |r| ==> '0' <= r[k] <= '9'
    ensures n > 0 ==> r[0] != '0'
  {
    if n < 10 then [DigitChar(n)] else NatToString(n / 10) + [DigitChar(n % 10)]
  }

  /** `str(i)` for an integer. */
  function IntToString(i: int): (r: string)
    ensures |r| > 0
    ensures (r[0] == '-') <==> i < 0
  {
    if i < 0 then "-" + NatToString(-i) else NatToString(i)
  }

  /** Python's `<=` on strings: lexicographic by code point. */
  predicate LexLe(a: string, b: string) {
    |a| == 0 || (|b| > 0 && (a[0] < b[0] || (a[0] == b[0] && LexLe(a[1..], b[1..]))))
  }

  /** Any two strings are ordered one way or the other. */
  lemma {:induction false} LexLeTotal(a: string, b: string)
    ensures LexLe(a, b) || LexLe(b, a)
  {
    if |a| > 0 && |b| > 0 && a[0] == b[0] {
      LexLeTotal(a[1..], b[1..]);
    }
  }

  lemma {:induction false} LexLeTransitive(a: string, b: string, c: string)
    requires LexLe(a, b) && LexLe(b, c)
    ensures LexLe(a, c)
  {
    if |a| > 0 && a[0] == b[0] && b[0] == c[0] {
      LexLeTransitive(a[1..], b[1..], c[1..]);
    }
  }

  /** Only equal strings are ordered both ways. */
  lemma {:induction false} LexLeAntisymmetric(a: string, b: string)
    requires LexLe(a, b) && LexLe(b, a)
    ensures a == b
  {
    if |a| > 0 {
      LexLeAntisymmetric(a[1..], b[1..]);
      assert a == [a[0]] + a[1..] && b == [b[0]] + b[1..];
    }
  }
}
