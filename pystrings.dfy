/**
 * The few Python string operations the diarization recipe relies on:
 * `str.rsplit(sep, 2)`, `str.split(sep)[0]`, `str.rstrip()`, `str.startswith`,
 * `line[:-1]`, `str(int)` and the ordering `<` on strings.
 */
module PyStrings {
  import opened Wrappers

  /** `sep.join(parts)` for a non-empty list of parts. */
  function Join(parts: seq<string>, sep: char): string
    requires |parts| > 0
  {
    if |parts| == 1 then parts[0] else parts[0] + [sep] + Join(parts[1..], sep)
  }

  /** `p` is the position of the last occurrence of `c` in `s`. */
  predicate IsLastIndex(s: string, c: char, p: nat)
  {
    p < |s| && s[p] == c && c !in s[p + 1..]
  }

  /** A character that occurs has a last occurrence, and only one. */
  lemma LastIndexUnique(s: string, c: char)
    ensures c in s ==> exists p: nat :: IsLastIndex(s, c, p)
    ensures forall p: nat, q: nat :: IsLastIndex(s, c, p) && IsLastIndex(s, c, q) ==> p == q
  {
    if c in s {
      var k :| 0 <= k < |s| && s[k] == c;
      LastAtOrAfter(s, c, k);
    }
    forall p: nat, q: nat | IsLastIndex(s, c, p) && IsLastIndex(s, c, q)
      ensures p == q
    {
      NothingAfterLast(s, c, p);
      NothingAfterLast(s, c, q);
    }
  }

  lemma NothingAfterLast(s: string, c: char, p: nat)
    requires IsLastIndex(s, c, p)
    ensures forall q :: p < q < |s| ==> s[q] != c
  {
    forall q | p < q < |s|
      ensures s[q] != c
    {
      assert s[q] == s[p + 1..][q - p - 1];
    }
  }

  lemma {:induction false} LastAtOrAfter(s: string, c: char, k: nat)
    requires k < |s| && s[k] == c
    ensures exists p: nat :: IsLastIndex(s, c, p)
    decreases |s| - k
  {
    if c in s[k + 1..] {
      var j :| 0 <= j < |s[k + 1..]| && s[k + 1..][j] == c;
      LastAtOrAfter(s, c, k + 1 + j);
    } else {
      assert IsLastIndex(s, c, k);
    }
  }

  /** `s.rfind(c)`: the position of the last occurrence of `c`, if any. */
  function LastIndex(s: string, c: char): (r: Option<nat>)
    ensures r.None? <==> c !in s
    ensures r.Some? ==> IsLastIndex(s, c, r.value)
  {
    LastIndexUnique(s, c);
    if c in s then
      var p :| IsLastIndex(s, c, p);
      Some(p)
    else None
  }

  /** The last occurrence of `c` is the one followed by no other `c`. */
  lemma LastIndexOfSplit(a: string, c: char, b: string)
    requires c !in b
    ensures LastIndex(a + [c] + b, c) == Some(|a|)
  {
    var s := a + [c] + b;
    assert s[|a| + 1..] == b;
    assert IsLastIndex(s, c, |a|);
    LastIndexUnique(s, c);
  }

  /** Joining a list with one more part adds the separator and that part. */
  lemma {:induction false} JoinAppend(parts: seq<string>, last: string, sep: char)
    requires |parts| > 0
    ensures Join(parts + [last], sep) == Join(parts, sep) + [sep] + last
  {
    var all := parts + [last];
    assert all[1..] == parts[1..] + [last];
    if |parts| > 1 {
      JoinAppend(parts[1..], last, sep);
    }
  }

  /**
   * `s.rsplit(sep, maxsplit)`: split at the last `maxsplit` occurrences of
   * `sep`, working leftwards; with fewer occurrences, the list is shorter.
   */
  function RSplit(s: string, sep: char, maxsplit: nat): (parts: seq<string>)
    ensures 1 <= |parts| <= maxsplit + 1
  {
    if maxsplit == 0 then [s]
    else match LastIndex(s, sep)
      case None => [s]
      case Some(p) => RSplit(s[..p], sep, maxsplit - 1) + [s[p + 1..]]
  }

  /**
   * `parts` is a right split of `s` at `sep` with at most `maxsplit`
   * splits: joined with `sep` they give `s` back, the parts after the first
   * never contain `sep`, nor does the first when there are fewer than
   * `maxsplit + 1` parts.
   */
  predicate IsRSplit(parts: seq<string>, s: string, sep: char, maxsplit: nat)
  {
    && 1 <= |parts| <= maxsplit + 1
    && Join(parts, sep) == s
    && (forall k :: 1 <= k < |parts| ==> sep !in parts[k])
    && (|parts| < maxsplit + 1 ==> sep !in parts[0])
  }

  /** `s.rsplit(sep, maxsplit)` is a right split of `s` in that sense. */
  lemma {:induction false} RSplitParts(s: string, sep: char, maxsplit: nat)
    ensures IsRSplit(RSplit(s, sep, maxsplit), s, sep, maxsplit)
  {
    if maxsplit > 0 && LastIndex(s, sep).Some? {
      var p := LastIndex(s, sep).value;
      var head := RSplit(s[..p], sep, maxsplit - 1);
      assert RSplit(s, sep, maxsplit) == head + [s[p + 1..]];
      assert s == s[..p] + [sep] + s[p + 1..];
      RSplitParts(s[..p], sep, maxsplit - 1);
      AppendPart(head, s[..p], s[p + 1..], sep, maxsplit - 1);
    }
  }

  /** Adding a separator-free last part to a split of `h` gives a split of `h + [sep] + t`. */
  lemma AppendPart(head: seq<string>, h: string, t: string, sep: char, m: nat)
    requires IsRSplit(head, h, sep, m) && sep !in t
    ensures IsRSplit(head + [t], h + [sep] + t, sep, m + 1)
  {
    JoinAppend(head, t, sep);
    var parts := head + [t];
    assert parts[0] == head[0];
    forall k | 1 <= k < |parts|
      ensures sep !in parts[k]
    {
      if k < |head| {
        assert parts[k] == head[k];
      }
    }
  }

  /**
   * Splitting into `maxsplit + 1` parts at the last `maxsplit` separators is
   * the only such split: any parts whose later members are separator-free
   * and whose join is `s` are what `RSplit` returns, so the first part may
   * itself hold separators.
   */
  lemma {:induction false} RSplitUnique(s: string, sep: char, maxsplit: nat, parts: seq<string>)
    requires |parts| == maxsplit + 1 && Join(parts, sep) == s
    requires forall k :: 1 <= k < |parts| ==> sep !in parts[k]
    ensures RSplit(s, sep, maxsplit) == parts
  {
    if maxsplit == 0 {
      assert parts == [parts[0]];
    } else {
      var init := parts[..maxsplit];
      var last := parts[maxsplit];
      assert parts == init + [last];
      JoinAppend(init, last, sep);
      var head := Join(init, sep);
      LastIndexOfSplit(head, sep, last);
      assert s[..|head|] == head && s[|head| + 1..] == last;
      forall k | 1 <= k < |init|
        ensures sep !in init[k]
      {
        assert init[k] == parts[k];
      }
      RSplitUnique(head, sep, maxsplit - 1, init);
    }
  }

  /** `s.split(sep)[0]`: everything before the first `sep`, or all of `s`. */
  function FirstField(s: string, sep: char): (r: string)
    ensures sep !in r
    ensures |r| <= |s| && s[..|r|] == r
    ensures |r| < |s| ==> s[|r|] == sep
  {
    if |s| == 0 || s[0] == sep then []
    else [s[0]] + FirstField(s[1..], sep)
  }

  /** Python's `str.isspace` on one character. */
  predicate IsSpace(c: char)
  {
    ('\U{9}' <= c <= '\U{D}') || ('\U{1C}' <= c <= '\U{20}') || c == '\U{85}' || c == '\U{A0}'
    || c == '\U{1680}' || ('\U{2000}' <= c <= '\U{200A}') || c == '\U{2028}' || c == '\U{2029}'
    || c == '\U{202F}' || c == '\U{205F}' || c == '\U{3000}'
  }

  /** `s.rstrip()`: `s` without its trailing white space. */
  function RStrip(s: string): (r: string)
    ensures |r| <= |s| && s[..|r|] == r
    ensures |r| > 0 ==> !IsSpace(r[|r| - 1])
    ensures forall k :: |r| <= k < |s| ==> IsSpace(s[k])
  {
    if |s| > 0 && IsSpace(s[|s| - 1]) then RStrip(s[..|s| - 1]) else s
  }

  /** `s.startswith(prefix)`. */
  predicate StartsWith(s: string, prefix: string)
  {
    |prefix| <= |s| && s[..|prefix|] == prefix
  }

  /** A string starts with `prefix` exactly when it is `prefix` followed by the rest. */
  lemma StartsWithSplit(s: string, prefix: string)
    ensures StartsWith(s, prefix) <==> |prefix| <= |s| && s == prefix + s[|prefix|..]
  {
    if |prefix| <= |s| && s == prefix + s[|prefix|..] {
      assert s[..|prefix|] == prefix;
    }
  }

  /** `s[:-1]`: `s` without its last character; the empty string stays empty. */
  function DropLast(s: string): (r: string)
    ensures |s| > 0 ==> r + [s[|s| - 1]] == s
    ensures |s| == 0 ==> r == s
  {
    if |s| == 0 then s else s[..|s| - 1]
  }

  function Digit(d: nat): (c: char)
    requires d < 10
  {
    (('0' as int) + d) as char
  }

  /** The decimal digits of `n`, most significant first, without leading zeros. */
  function NatToDecimal(n: nat): (s: string)
    ensures |s| > 0 && '-' !in s && '_' !in s
  {
    if n < 10 then [Digit(n)] else NatToDecimal(n / 10) + [Digit(n % 10)]
  }

  /**
   * `str(n)` for a natural number is digits only, and starts with `0` only
   * for zero itself: no leading zeros.
   */
  lemma {:induction false} NatToDecimalDigits(n: nat)
    ensures forall k :: 0 <= k < |NatToDecimal(n)| ==> '0' <= NatToDecimal(n)[k] <= '9'
    ensures NatToDecimal(n)[0] == '0' <==> n == 0
  {
    if n >= 10 {
      NatToDecimalDigits(n / 10);
      var s := NatToDecimal(n);
      assert s == NatToDecimal(n / 10) + [Digit(n % 10)];
      assert s[0] == NatToDecimal(n / 10)[0];
    }
  }

  /** `str(i)` for a Python integer. */
  function IntToString(i: int): (s: string)
    ensures |s| > 0 && '_' !in s
    ensures (s[0] == '-') == (i < 0)
  {
    if i < 0 then "-" + NatToDecimal(-i) else NatToDecimal(i)
  }

  /** The value of a string of decimal digits: Python's `int(s)` on such a string. */
  function DecimalValue(s: string): nat
  {
    if |s| == 0 then 0
    else
      var last := s[|s| - 1];
      var d := if '0' <= last <= '9' then (last as int) - ('0' as int) else 0;
      10 * DecimalValue(s[..|s| - 1]) + d
  }

  /** Reading the digits back gives the number: `int(str(n)) == n`. */
  lemma {:induction false} DecimalRoundTrip(n: nat)
    ensures DecimalValue(NatToDecimal(n)) == n
  {
    if n >= 10 {
      DecimalRoundTrip(n / 10);
      var s := NatToDecimal(n);
      assert s[..|s| - 1] == NatToDecimal(n / 10);
    }
  }

  lemma NatToDecimalInjective(m: nat, n: nat)
    requires NatToDecimal(m) == NatToDecimal(n)
    ensures m == n
  {
    DecimalRoundTrip(m);
    DecimalRoundTrip(n);
  }

  /** A negative number prints as a minus sign followed by the digits of its magnitude. */
  lemma NegativeDigits(a: int)
    requires a < 0
    ensures IntToString(a)[1..] == NatToDecimal(-a)
  {
  }

  /** Different integers print differently, so `str` loses no information. */
  lemma IntToStringInjective(a: int, b: int)
    ensures IntToString(a) == IntToString(b) <==> a == b
  {
    if IntToString(a) == IntToString(b) {
      if a < 0 {
        NegativeDigits(a);
        NegativeDigits(b);
        NatToDecimalInjective(-a, -b);
      } else {
        NatToDecimalInjective(a, b);
      }
    }
  }

  /** Python's `a < b` on strings: lexicographic by code point, a proper prefix first. */
  predicate LexLess(a: string, b: string)
  {
    if |a| == 0 then |b| > 0
    else if |b| == 0 then false
    else if a[0] != b[0] then a[0] < b[0]
    else LexLess(a[1..], b[1..])
  }

  lemma {:induction false} LexLessIrreflexive(a: string)
    ensures !LexLess(a, a)
  {
    if |a| > 0 {
      LexLessIrreflexive(a[1..]);
    }
  }

  lemma {:induction false} LexLessTransitive(a: string, b: string, c: string)
    requires LexLess(a, b) && LexLess(b, c)
    ensures LexLess(a, c)
  {
    if |a| > 0 && |b| > 0 && |c| > 0 && a[0] == b[0] && b[0] == c[0] {
      LexLessTransitive(a[1..], b[1..], c[1..]);
    }
  }

  /** Any two different strings are ordered one way and not the other. */
  lemma {:induction false} LexLessTrichotomy(a: string, b: string)
    ensures a == b || LexLess(a, b) || LexLess(b, a)
    ensures !(LexLess(a, b) && LexLess(b, a))
  {
    if |a| > 0 && |b| > 0 && a[0] == b[0] {
      LexLessTrichotomy(a[1..], b[1..]);
      if a[1..] == b[1..] {
        assert a == [a[0]] + a[1..] && b == [b[0]] + b[1..];
      }
    }
  }
}
