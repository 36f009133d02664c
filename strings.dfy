/** The string operations the converter takes from JavaScript's String prototype and template literals. */
module Strings {

  /** Whether `sub` occurs in `s` at position `i`. */
  predicate OccursAt(s: string, sub: string, i: int)
  {
    0 <= i <= |s| - |sub| && s[i..i + |sub|] == sub
  }

  /** `s.includes(sub)`: `sub` occurs in `s` at some position. */
  predicate Contains(s: string, sub: string)
  {
    exists i | 0 <= i <= |s| - |sub| :: OccursAt(s, sub, i)
  }

  /** A string contains every one of its infixes. */
  lemma ContainsInfix(p: string, sub: string, q: string)
    ensures Contains(p + sub + q, sub)
  {
    assert OccursAt(p + sub + q, sub, |p|);
  }

  /** A string that contains `sub` still does after a prefix is put before it. */
  lemma PrefixKeepsContains(prefix: string, s: string, sub: string)
    requires Contains(s, sub)
    ensures Contains(prefix + s, sub)
  {
    var k :| 0 <= k <= |s| - |sub| && OccursAt(s, sub, k);
    assert (prefix + s)[|prefix| + k..|prefix| + k + |sub|] == s[k..k + |sub|];
    assert OccursAt(prefix + s, sub, |prefix| + k);
  }

  /** A string lacking some character of `sub` does not contain `sub`. */
  lemma NotContainsMissingChar(s: string, sub: string, c: char)
    requires c in sub && c !in s
    ensures !Contains(s, sub)
  {
  }

  /**
   * The position of the first `c` in `s` at or after `from`, or -1
   * (`s.indexOf(c, from)`). The scan moves an index over a fixed string.
   */
  function IndexOf(s: string, c: char, from: nat): (r: int)
    ensures r == -1 || (from <= r < |s| && s[r] == c)
    ensures forall j :: from <= j < |s| && (r == -1 || j < r) ==> s[j] != c
    decreases |s| - from
  {
    if from >= |s| then -1
    else if s[from] == c then from
    else IndexOf(s, c, from + 1)
  }

  /** The scan stops at the first `c` from `from` on. */
  lemma {:induction false} IndexOfAt(s: string, c: char, from: nat, k: nat)
    requires from <= k < |s| && s[k] == c
    requires forall j :: from <= j < k ==> s[j] != c
    ensures IndexOf(s, c, from) == k
    decreases k - from
  {
    if from < k {
      IndexOfAt(s, c, from + 1, k);
    }
  }

  /** The scan finds nothing when no `c` follows `from`. */
  lemma {:induction false} IndexOfNone(s: string, c: char, from: nat)
    requires forall j :: from <= j < |s| ==> s[j] != c
    ensures IndexOf(s, c, from) == -1
    decreases |s| - from
  {
    if from < |s| {
      IndexOfNone(s, c, from + 1);
    }
  }

  /** The parts of `s[from..]` between occurrences of `sep`. */
  function SplitFrom(s: string, sep: char, from: nat): (parts: seq<string>)
    requires from <= |s|
    ensures |parts| >= 1
    ensures forall i :: 0 <= i < |parts| ==> sep !in parts[i]
    decreases |s| - from
  {
    var k := IndexOf(s, sep, from);
    if k < 0 then
      assert forall c :: c in s[from..] ==> c != sep by {
        forall c | c in s[from..] ensures c != sep {
          var j :| 0 <= j < |s[from..]| && s[from..][j] == c;
          assert s[from + j] == c;
        }
      }
      [s[from..]]
    else
      assert forall c :: c in s[from..k] ==> c != sep by {
        forall c | c in s[from..k] ensures c != sep {
          var j :| 0 <= j < |s[from..k]| && s[from..k][j] == c;
          assert s[from + j] == c;
        }
      }
      [s[from..k]] + SplitFrom(s, sep, k + 1)
  }

  /** `s.split(sep)` for a one-character separator: never empty, and no part holds `sep`. */
  function Split(s: string, sep: char): (parts: seq<string>)
    ensures |parts| >= 1
    ensures forall i :: 0 <= i < |parts| ==> sep !in parts[i]
  {
    SplitFrom(s, sep, 0)
  }

  /** `parts.join(sep)`. */
  function Join(parts: seq<string>, sep: char): string
    requires |parts| >= 1
  {
    if |parts| == 1 then parts[0] else parts[0] + [sep] + Join(parts[1..], sep)
  }

  /** Joining the parts of `s[from..]` again gives back `s[from..]`. */
  lemma {:induction false} JoinSplitFrom(s: string, sep: char, from: nat)
    requires from <= |s|
    ensures Join(SplitFrom(s, sep, from), sep) == s[from..]
    decreases |s| - from
  {
    var k := IndexOf(s, sep, from);
    if k >= 0 {
      var rest := SplitFrom(s, sep, k + 1);
      var parts := SplitFrom(s, sep, from);
      assert parts == [s[from..k]] + rest;
      assert Join(parts, sep) == s[from..k] + [sep] + Join(rest, sep) by {
        assert parts[1..] == rest;
      }
      assert Join(rest, sep) == s[k + 1..] by {
        JoinSplitFrom(s, sep, k + 1);
      }
      assert s[from..] == s[from..k] + [sep] + s[k + 1..];
    }
  }

  /** Splitting and joining again gives back the original string. */
  lemma JoinSplit(s: string, sep: char)
    ensures Join(Split(s, sep), sep) == s
  {
    JoinSplitFrom(s, sep, 0);
  }

  /** A string with one `sep`, between two `sep`-free strings, splits into those two. */
  lemma SplitOnce(p: string, sep: char, q: string)
    requires sep !in p && sep !in q
    ensures Split(p + [sep] + q, sep) == [p, q]
  {
    var s := p + [sep] + q;
    assert forall j :: 0 <= j < |p| ==> s[j] == p[j];
    assert forall j :: |p| < j < |s| ==> s[j] == q[j - |p| - 1];
    IndexOfAt(s, sep, 0, |p|);
    IndexOfNone(s, sep, |p| + 1);
    assert SplitFrom(s, sep, |p| + 1) == [s[|p| + 1..]];
    assert SplitFrom(s, sep, 0) == [s[0..|p|]] + [s[|p| + 1..]];
    assert s[0..|p|] == p && s[|p| + 1..] == q;
  }

  /** A string without `sep` splits into itself alone. */
  lemma SplitWithoutSep(s: string, sep: char)
    requires sep !in s
    ensures Split(s, sep) == [s]
  {
    assert forall j :: 0 <= j < |s| ==> s[j] != sep;
    IndexOfNone(s, sep, 0);
    assert s[0..] == s;
  }

  /** From any start at or before the last `sep`, the last part is what follows that `sep`. */
  lemma {:induction false} LastSplitFromPart(s: string, sep: char, from: nat, k: nat)
    requires from <= k < |s| && s[k] == sep
    requires forall j :: k < j < |s| ==> s[j] != sep
    ensures var parts := SplitFrom(s, sep, from); parts[|parts| - 1] == s[k + 1..]
    decreases k - from
  {
    var i := IndexOf(s, sep, from);
    var rest := SplitFrom(s, sep, i + 1);
    assert SplitFrom(s, sep, from) == [s[from..i]] + rest;
    if i == k {
      IndexOfNone(s, sep, k + 1);
    } else {
      LastSplitFromPart(s, sep, i + 1, k);
    }
  }

  /** The last part of `s.split(sep)` is whatever follows the last `sep`. */
  lemma LastSplitPart(s: string, sep: char, k: nat)
    requires k < |s| && s[k] == sep
    requires forall j :: k < j < |s| ==> s[j] != sep
    ensures Split(s, sep)[|Split(s, sep)| - 1] == s[k + 1..]
  {
    LastSplitFromPart(s, sep, 0, k);
  }

  /** The decimal digit for `d`. */
  function Digit(d: nat): char
    requires d < 10
  {
    ('0' as int + d) as char
  }

  /** The value of a decimal digit character. */
  function DigitValue(c: char): nat
    requires '0' <= c <= '9'
  {
    (c - '0') as nat
  }

  /** `${n}` for a non-negative integer: its decimal numeral, digits only, no leading zero. */
  function NatToString(n: nat): (s: string)
    ensures |s| >= 1
    ensures forall i :: 0 <= i < |s| ==> '0' <= s[i] <= '9'
    ensures |s| > 1 ==> s[0] != '0'
  {
    if n < 10 then [Digit(n)] else NatToString(n / 10) + [Digit(n % 10)]
  }

  /** The number a string of decimal digits denotes. */
  function DecimalValue(s: string): nat
    requires forall i :: 0 <= i < |s| ==> '0' <= s[i] <= '9'
  {
    if |s| == 0 then 0 else 10 * DecimalValue(s[..|s| - 1]) + DigitValue(s[|s| - 1])
  }

  /** Reading the numeral back gives the number: `NatToString` is injective. */
  lemma {:induction false} NatToStringValue(n: nat)
    ensures DecimalValue(NatToString(n)) == n
  {
    if n >= 10 {
      NatToStringValue(n / 10);
      var s := NatToString(n);
      assert s[..|s| - 1] == NatToString(n / 10);
    }
  }

  /** `${i}` for any integer: a minus sign before the numeral of a negative number. */
  function IntToString(i: int): (s: string)
    ensures i >= 0 ==> s == NatToString(i)
    ensures i < 0 ==> s == "-" + NatToString(-i)
  {
    if i < 0 then "-" + NatToString(-i) else NatToString(i)
  }
}
