/**
 * The string operations of the JavaScript runtime that the controllers and
 * the worker rely on: `String.prototype.split` with a one-character
 * separator, its inverse `Array.prototype.join`, and the decimal rendering
 * of a number inside a template literal.
 */
module Text {
  import opened Wrappers

  /** `s.split(c)`: the maximal runs of `s` between occurrences of `c`, in order. */
  function Split(s: string, c: char): (parts: seq<string>)
    ensures |parts| >= 1
    ensures forall i :: 0 <= i < |parts| ==> c !in parts[i]
    decreases |s|
  {
    if s == [] then [""]
    else
      var rest := Split(s[1..], c);
      if s[0] == c then [""] + rest
      else [[s[0]] + rest[0]] + rest[1..]
  }

  /** `parts.join(c)`. */
  function Join(parts: seq<string>, c: char): string
    decreases |parts|
  {
    if parts == [] then ""
    else if |parts| == 1 then parts[0]
    else parts[0] + [c] + Join(parts[1..], c)
  }

  /** `s.split(c)[i]`, which is `undefined` when there are not that many fields. */
  function Field(s: string, c: char, i: nat): (r: Option<string>)
    ensures r.Some? <==> i < |Split(s, c)|
    ensures r.Some? ==> r.value == Split(s, c)[i] && c !in r.value
  {
    var parts := Split(s, c);
    if i < |parts| then Some(parts[i]) else None
  }

  /** Joining the fields of a split gives back the original text. */
  lemma {:induction false} JoinSplit(s: string, c: char)
    ensures Join(Split(s, c), c) == s
    decreases |s|
  {
    if s != [] {
      var rest := Split(s[1..], c);
      JoinSplit(s[1..], c);
      if s[0] == c {
        assert Split(s, c) == [""] + rest;
      } else if |rest| > 1 {
        assert Join(rest, c) == rest[0] + [c] + Join(rest[1..], c);
        assert Split(s, c)[1..] == rest[1..];
      }
    }
  }

  /** Text without the separator is a single field. */
  lemma {:induction false} SplitWithoutSeparator(a: string, c: char)
    requires c !in a
    ensures Split(a, c) == [a]
    decreases |a|
  {
    if a != [] {
      assert c !in a[1..];
      SplitWithoutSeparator(a[1..], c);
      assert [a[0]] + a[1..] == a;
    }
  }

  /** The first field is everything before the first separator; the rest is split independently. */
  lemma {:induction false} SplitAtFirst(a: string, b: string, c: char)
    requires c !in a
    ensures Split(a + [c] + b, c) == [a] + Split(b, c)
    decreases |a|
  {
    var s := a + [c] + b;
    if a == [] {
      assert s[0] == c && s[1..] == b;
    } else {
      assert s[0] == a[0] && s[1..] == a[1..] + [c] + b;
      SplitAtFirst(a[1..], b, c);
      assert [a[0]] + a[1..] == a;
    }
  }

  /** Splitting a join of separator-free fields gives back the fields. */
  lemma {:induction false} SplitJoin(parts: seq<string>, c: char)
    requires |parts| >= 1
    requires forall i :: 0 <= i < |parts| ==> c !in parts[i]
    ensures Split(Join(parts, c), c) == parts
    decreases |parts|
  {
    if |parts| == 1 {
      SplitWithoutSeparator(parts[0], c);
    } else {
      SplitJoin(parts[1..], c);
      SplitAtFirst(parts[0], Join(parts[1..], c), c);
    }
  }

  /** There is a second field exactly when the separator occurs. */
  lemma {:induction false} SecondFieldExists(s: string, c: char)
    ensures |Split(s, c)| >= 2 <==> c in s
    decreases |s|
  {
    if c !in s {
      SplitWithoutSeparator(s, c);
    } else if s[0] != c {
      assert c in s[1..];
      SecondFieldExists(s[1..], c);
    }
  }

  /** The character of a decimal digit. */
  function Digit(d: nat): char
    requires d < 10
  {
    ('0' as int + d) as char
  }

  /** The decimal rendering of a non-negative integer, as in `${n}`. */
  function DecimalString(n: nat): (s: string)
    ensures |s| >= 1
    ensures n >= 10 ==> |s| >= 2
    decreases n
  {
    if n < 10 then [Digit(n)] else DecimalString(n / 10) + [Digit(n % 10)]
  }

  /** Distinct numbers render as distinct strings. */
  lemma {:induction false} DecimalStringInjective(a: nat, b: nat)
    requires DecimalString(a) == DecimalString(b)
    ensures a == b
    decreases a
  {
    var s := DecimalString(a);
    if a >= 10 && b >= 10 {
      assert s[|s| - 1] == Digit(a % 10) && s[|s| - 1] == Digit(b % 10);
      assert DecimalString(a / 10) == s[..|s| - 1] == DecimalString(b / 10);
      DecimalStringInjective(a / 10, b / 10);
    } else if a < 10 && b < 10 {
      assert s[0] == Digit(a) && s[0] == Digit(b);
    }
  }
}
