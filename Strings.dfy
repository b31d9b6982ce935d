/**
 * The few java.lang.String operations the core relies on, over `string` (= seq<char>):
 * endsWith, replace(CharSequence, "") , replace(char, char) and Long.toString,
 * plus an order-preserving filter (totallylazy's Sequence.filter).
 */
module Strings {

  /** String.startsWith. */
  predicate StartsWith(s: string, prefix: string) {
    |prefix| <= |s| && s[..|prefix|] == prefix
  }

  /** String.endsWith. */
  predicate EndsWith(s: string, suffix: string) {
    |suffix| <= |s| && s[|s| - |suffix|..] == suffix
  }

  /** A string ends with `suffix` exactly when it is some string followed by `suffix`. */
  lemma EndsWithIffConcat(s: string, suffix: string)
    ensures EndsWith(s, suffix) <==> exists p :: s == p + suffix
  {
    if EndsWith(s, suffix) {
      var p := s[..|s| - |suffix|];
      assert s == p + suffix;
    }
    if exists p :: s == p + suffix {
      var p :| s == p + suffix;
      assert s[|s| - |suffix|..] == suffix;
    }
  }

  /**
   * String.replace(target, "") for a non-empty target: scanning from the left, every
   * occurrence of `target` is dropped; occurrences do not overlap, and text that comes
   * together only after a removal is not scanned again.
   */
  function RemoveAll(s: string, target: string): (r: string)
    requires |target| > 0
    ensures |r| <= |s|
    decreases |s|
  {
    if |s| == 0 then ""
    else if StartsWith(s, target) then RemoveAll(s[|target|..], target)
    else [s[0]] + RemoveAll(s[1..], target)
  }

  /** A string in which the target's first character never appears is left as it is. */
  lemma {:induction false} RemoveAllAbsent(s: string, target: string)
    requires |target| > 0 && target[0] !in s
    ensures RemoveAll(s, target) == s
  {
    if |s| > 0 {
      assert !StartsWith(s, target) by { assert s[0] in s; }
      assert target[0] !in s[1..] by {
        forall c | c in s[1..] ensures c in s { var k :| 0 <= k < |s[1..]| && s[1..][k] == c; assert s[k + 1] == c; }
      }
      RemoveAllAbsent(s[1..], target);
      assert s == [s[0]] + s[1..];
    }
  }

  /** Removing `target` from `p + target` gives back `p` when `p` cannot start an occurrence. */
  lemma {:induction false} RemoveAllTrailing(p: string, target: string)
    requires |target| > 0 && target[0] !in p
    ensures RemoveAll(p + target, target) == p
  {
    var s := p + target;
    if |p| == 0 {
      assert s == target;
      assert StartsWith(s, target);
      assert s[|target|..] == "";
    } else {
      assert s[0] == p[0] && p[0] in p;
      assert !StartsWith(s, target);
      assert target[0] !in p[1..] by {
        forall c | c in p[1..] ensures c in p { var k :| 0 <= k < |p[1..]| && p[1..][k] == c; assert p[k + 1] == c; }
      }
      assert s[1..] == p[1..] + target;
      RemoveAllTrailing(p[1..], target);
      assert p == [p[0]] + p[1..];
    }
  }

  /** String.replace(char, char): every `from` becomes `to`, every other character stays (see ReplaceCharAt). */
  function ReplaceChar(s: string, from: char, to: char): (r: string)
    ensures |r| == |s|
  {
    if |s| == 0 then "" else [if s[0] == from then to else s[0]] + ReplaceChar(s[1..], from, to)
  }

  lemma {:induction false} ReplaceCharAt(s: string, from: char, to: char)
    ensures forall i :: 0 <= i < |s| ==> ReplaceChar(s, from, to)[i] == if s[i] == from then to else s[i]
  {
    if |s| > 0 {
      ReplaceCharAt(s[1..], from, to);
    }
  }

  /** After replacing `from` by a different character, `from` no longer appears. */
  lemma ReplaceCharRemoves(s: string, from: char, to: char)
    requires from != to
    ensures from !in ReplaceChar(s, from, to)
  {
    ReplaceCharAt(s, from, to);
  }

  /** The decimal digit for 0..9. */
  function DigitChar(d: nat): (c: char)
    requires d < 10
    ensures '0' <= c <= '9'
  {
    "0123456789"[d]
  }

  /** The value of a decimal digit character. */
  function DigitValue(c: char): (d: nat)
    requires '0' <= c <= '9'
    ensures d < 10
  {
    (c as int - '0' as int) as nat
  }

  predicate IsDigits(s: string) {
    forall i :: 0 <= i < |s| ==> '0' <= s[i] <= '9'
  }

  /** Long.toString of a non-negative number: its decimal digits, without leading zeros (see NatToStringDigits). */
  function NatToString(n: nat): (s: string)
    ensures |s| > 0 && '0' <= s[0] <= '9'
    ensures |s| > 1 ==> s[0] != '0'
  {
    if n < 10 then [DigitChar(n)] else NatToString(n / 10) + [DigitChar(n % 10)]
  }

  lemma {:induction false} NatToStringDigits(n: nat)
    ensures IsDigits(NatToString(n))
  {
    if n >= 10 {
      NatToStringDigits(n / 10);
    }
  }

  /** Long.toString: a minus sign before the digits of a negative number. */
  function IntToString(n: int): (s: string)
    ensures |s| > 0
    ensures n < 0 <==> s[0] == '-'
  {
    if n < 0 then "-" + NatToString(-n) else NatToString(n)
  }

  /** Reads a string of decimal digits (the inverse of NatToString). */
  function ParseDigits(s: string): nat
    requires IsDigits(s)
  {
    if |s| == 0 then 0 else ParseDigits(s[..|s| - 1]) * 10 + DigitValue(s[|s| - 1])
  }

  /** Reading back the digits Long.toString printed gives the number. */
  lemma {:induction false} ParseNatToString(n: nat)
    ensures IsDigits(NatToString(n)) && ParseDigits(NatToString(n)) == n
  {
    NatToStringDigits(n);
    var s := NatToString(n);
    if n >= 10 {
      assert s[..|s| - 1] == NatToString(n / 10);
      ParseNatToString(n / 10);
    }
  }

  /** totallylazy's filter: the elements that satisfy `keep`, in their original order. */
  function Filter<T(!new)>(s: seq<T>, keep: T -> bool): (r: seq<T>)
    ensures |r| <= |s|
    decreases |s|
  {
    if |s| == 0 then [] else if keep(s[0]) then [s[0]] + Filter(s[1..], keep) else Filter(s[1..], keep)
  }

  /** The elements kept are exactly the elements of s that satisfy `keep`. */
  lemma {:induction false} FilterMembers<T(!new)>(s: seq<T>, keep: T -> bool)
    ensures forall x :: x in Filter(s, keep) <==> x in s && keep(x)
    decreases |s|
  {
    if |s| > 0 {
      FilterMembers(s[1..], keep);
      assert forall x :: x in s <==> x == s[0] || x in s[1..];
    }
  }

  /** Filtering distributes over concatenation, so the relative order of kept elements is preserved. */
  lemma {:induction false} FilterConcat<T(!new)>(s: seq<T>, t: seq<T>, keep: T -> bool)
    ensures Filter(s + t, keep) == Filter(s, keep) + Filter(t, keep)
  {
    if |s| > 0 {
      assert (s + t)[1..] == s[1..] + t;
      FilterConcat(s[1..], t, keep);
    } else {
      assert s + t == t;
    }
  }

  /** When every element is kept, filtering returns the sequence itself, order included. */
  lemma {:induction false} FilterKeepsAll<T(!new)>(s: seq<T>, keep: T -> bool)
    requires forall i :: 0 <= i < |s| ==> keep(s[i])
    ensures Filter(s, keep) == s
  {
    if |s| > 0 {
      assert forall i :: 0 <= i < |s[1..]| ==> s[1..][i] == s[i + 1];
      FilterKeepsAll(s[1..], keep);
    }
  }

  /** When no element is kept, filtering returns the empty sequence. */
  lemma {:induction false} FilterKeepsNone<T(!new)>(s: seq<T>, keep: T -> bool)
    requires forall i :: 0 <= i < |s| ==> !keep(s[i])
    ensures Filter(s, keep) == []
  {
    if |s| > 0 {
      assert forall i :: 0 <= i < |s[1..]| ==> s[1..][i] == s[i + 1];
      FilterKeepsNone(s[1..], keep);
    }
  }
}
