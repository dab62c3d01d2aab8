/**
 * The two functions of Go's `strings` package that the formatter relies on:
 * `Join` (used to flatten the request arguments) and, as its partner, `Split`
 * with the same semantics as Go's `strings.Split` on a one-character separator.
 */
module Strings {

  /** Go's `strings.Join(parts, sep)`: the parts with `sep` between neighbours. */
  function Join(parts: seq<string>, sep: string): (r: string)
    ensures parts == [] ==> r == ""
    ensures |parts| == 1 ==> r == parts[0]
    decreases |parts|
  {
    if |parts| == 0 then ""
    else if |parts| == 1 then parts[0]
    else parts[0] + sep + Join(parts[1..], sep)
  }

  /**
   * Go's `strings.Split(s, string(sep))`: the maximal runs between separators,
   * so the result is never empty (`Split("", sep) == [""]`).
   */
  function Split(s: string, sep: char): (r: seq<string>)
    ensures |r| >= 1
    decreases |s|
  {
    if |s| == 0 then [""]
    else
      var rest := Split(s[1..], sep);
      if s[0] == sep then [""] + rest
      else [[s[0]] + rest[0]] + rest[1..]
  }

  /** A string without the separator splits into itself. */
  lemma {:induction false} SplitWithoutSeparator(a: string, sep: char)
    requires sep !in a
    ensures Split(a, sep) == [a]
  {
    if |a| > 0 {
      SplitWithoutSeparator(a[1..], sep);
      assert [a[0]] + a[1..] == a;
    }
  }

  /** Splitting stops at the first separator: the part before it comes first. */
  lemma {:induction false} SplitAfterPart(a: string, sep: char, t: string)
    requires sep !in a
    ensures Split(a + [sep] + t, sep) == [a] + Split(t, sep)
  {
    var s := a + [sep] + t;
    if |a| == 0 {
      assert s[0] == sep && s[1..] == t;
    } else {
      assert s[0] == a[0] && s[1..] == a[1..] + [sep] + t;
      SplitAfterPart(a[1..], sep, t);
      assert [a[0]] + a[1..] == a;
    }
  }

  /**
   * Round trip: joining non-empty lists of separator-free parts and splitting
   * again gives back the parts.
   */
  lemma {:induction false} SplitJoin(parts: seq<string>, sep: char)
    requires |parts| >= 1
    requires forall i :: 0 <= i < |parts| ==> sep !in parts[i]
    ensures Split(Join(parts, [sep]), sep) == parts
  {
    if |parts| == 1 {
      SplitWithoutSeparator(parts[0], sep);
    } else {
      var tail := parts[1..];
      SplitJoin(tail, sep);
      assert Join(parts, [sep]) == parts[0] + [sep] + Join(tail, [sep]);
      SplitAfterPart(parts[0], sep, Join(tail, [sep]));
      assert [parts[0]] + tail == parts;
    }
  }

  /** The number of occurrences of `c` in `s`. */
  function Count(s: string, c: char): (n: nat)
    ensures c in s <==> n > 0
    decreases |s|
  {
    if |s| == 0 then 0
    else (if s[0] == c then 1 else 0) + Count(s[1..], c)
  }

  /** The total number of occurrences of `c` in all the parts. */
  function CountAll(parts: seq<string>, c: char): nat
    decreases |parts|
  {
    if |parts| == 0 then 0 else Count(parts[0], c) + CountAll(parts[1..], c)
  }

  lemma {:induction false} CountConcat(a: string, b: string, c: char)
    ensures Count(a + b, c) == Count(a, c) + Count(b, c)
  {
    if |a| > 0 {
      CountConcat(a[1..], b, c);
      assert (a + b)[0] == a[0] && (a + b)[1..] == a[1..] + b;
    } else {
      assert a + b == b;
    }
  }

  /** Splitting yields one more part than there are separators. */
  lemma {:induction false} SplitLength(s: string, sep: char)
    ensures |Split(s, sep)| == Count(s, sep) + 1
  {
    if |s| > 0 {
      SplitLength(s[1..], sep);
    }
  }

  /** Joining adds one separator between each pair of neighbouring parts. */
  lemma {:induction false} JoinCount(parts: seq<string>, sep: char)
    requires |parts| >= 1
    ensures Count(Join(parts, [sep]), sep) == CountAll(parts, sep) + |parts| - 1
  {
    if |parts| > 1 {
      JoinCount(parts[1..], sep);
      CountConcat(parts[0], [sep], sep);
      CountConcat(parts[0] + [sep], Join(parts[1..], [sep]), sep);
    }
  }

  lemma {:induction false} CountAllPositive(parts: seq<string>, c: char, i: nat)
    requires i < |parts| && c in parts[i]
    ensures CountAll(parts, c) > 0
  {
    if i > 0 {
      CountAllPositive(parts[1..], c, i - 1);
    }
  }

  /**
   * The converse of SplitJoin: a non-empty list comes back from its join only
   * when none of its parts contains the separator.
   */
  lemma {:induction false} SplitJoinOnlyIfSeparatorFree(parts: seq<string>, sep: char)
    requires |parts| >= 1
    requires Split(Join(parts, [sep]), sep) == parts
    ensures forall i :: 0 <= i < |parts| ==> sep !in parts[i]
  {
    forall i | 0 <= i < |parts|
      ensures sep !in parts[i]
    {
      if sep in parts[i] {
        CountAllPositive(parts, sep, i);
        JoinCount(parts, sep);
        SplitLength(Join(parts, [sep]), sep);
        assert false;
      }
    }
  }
}
