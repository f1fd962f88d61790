/**
 * Text helpers used by the SQL generators: `join` over an iterator of strings,
 * itertools' first-seen `unique`, decimal and hexadecimal rendering of integers,
 * and the UTF-8 byte length that Rust's `String::len` reports.
 */
module Strings {

  // ---------------------------------------------------------------------------
  // Joining
  // ---------------------------------------------------------------------------

  /** `parts.join(sep)`: the parts in order with `sep` between neighbours. */
  function Join(parts: seq<string>, sep: string): string
  {
    if |parts| == 0 then ""
    else if |parts| == 1 then parts[0]
    else parts[0] + sep + Join(parts[1..], sep)
  }

  /** Two parts join around one separator. */
  lemma JoinTwo(a: string, b: string, sep: string)
    ensures Join([a, b], sep) == a + sep + b
  {
    assert [a, b][1..] == [b];
  }

  /** Appending a part to a non-empty list appends the separator and the part. */
  lemma {:induction false} JoinSnoc(parts: seq<string>, x: string, sep: string)
    requires parts != []
    ensures Join(parts + [x], sep) == Join(parts, sep) + sep + x
  {
    if |parts| == 1 {
      assert parts + [x] == [parts[0], x];
      JoinTwo(parts[0], x, sep);
    } else {
      assert (parts + [x])[1..] == parts[1..] + [x];
      JoinSnoc(parts[1..], x, sep);
    }
  }

  /** Joining non-empty parts is empty exactly when there are no parts. */
  lemma JoinEmpty(parts: seq<string>, sep: string)
    requires forall i | 0 <= i < |parts| :: parts[i] != ""
    ensures Join(parts, sep) == "" <==> parts == []
  {
    if |parts| > 1 {
      assert |Join(parts, sep)| >= |parts[0]|;
    }
  }

  // ---------------------------------------------------------------------------
  // First-seen deduplication (itertools' `unique`)
  // ---------------------------------------------------------------------------

  ghost predicate Distinct<T>(xs: seq<T>)
  {
    forall i, j | 0 <= i < j < |xs| :: xs[i] != xs[j]
  }

  /** Position of the first occurrence of `x` in `xs`. */
  function FirstIndex<T(==)>(xs: seq<T>, x: T): (k: nat)
    requires x in xs
    ensures k < |xs| && xs[k] == x && x !in xs[..k]
  {
    if xs[0] == x then 0
    else
      var k' := FirstIndex(xs[1..], x);
      assert xs[..k' + 1] == [xs[0]] + xs[1..][..k'];
      k' + 1
  }

  /** The elements of `xs` in order of first appearance, each once. */
  function Dedup<T(==)>(xs: seq<T>): (r: seq<T>)
    ensures forall i | 0 <= i < |r| :: r[i] in xs
    ensures forall i | 0 <= i < |xs| :: xs[i] in r
    ensures Distinct(r)
    ensures |r| <= |xs|
  {
    if xs == [] then []
    else
      var d := Dedup(xs[..|xs| - 1]);
      var x := xs[|xs| - 1];
      assert xs == xs[..|xs| - 1] + [x];
      if x in d then d else d + [x]
  }

  lemma {:induction false} FirstIndexAppend<T>(xs: seq<T>, x: T, y: T)
    requires y in xs
    ensures FirstIndex(xs + [x], y) == FirstIndex(xs, y)
  {
    if xs[0] != y {
      assert (xs + [x])[1..] == xs[1..] + [x];
      FirstIndexAppend(xs[1..], x, y);
    }
  }

  /** `Dedup` keeps the order in which elements are first seen in the input. */
  lemma {:induction false} DedupFirstSeenOrder<T>(xs: seq<T>)
    ensures forall i, j | 0 <= i < j < |Dedup(xs)| ::
      FirstIndex(xs, Dedup(xs)[i]) < FirstIndex(xs, Dedup(xs)[j])
  {
    if xs != [] {
      var init, x := xs[..|xs| - 1], xs[|xs| - 1];
      assert xs == init + [x];
      DedupFirstSeenOrder(init);
      var d := Dedup(init);
      forall y | y in d ensures FirstIndex(xs, y) == FirstIndex(init, y) {
        FirstIndexAppend(init, x, y);
      }
      if x !in d {
        assert x !in init;
        assert FirstIndex(xs, x) == |init| by {
          assert xs[|init|] == x;
          assert x !in xs[..|init|];
        }
      }
    }
  }

  /** The first occurrence of an element is no later than any occurrence. */
  lemma FirstIndexAtMost<T>(xs: seq<T>, p: int)
    requires 0 <= p < |xs|
    ensures FirstIndex(xs, xs[p]) <= p
  {
  }

  /**
   * An element first seen no later than the element `Dedup` keeps at position
   * `i` is kept at or before position `i`.
   */
  lemma DedupKeepsEarlier<T>(xs: seq<T>, i: int, x: T)
    requires 0 <= i < |Dedup(xs)| && x in xs
    requires FirstIndex(xs, x) <= FirstIndex(xs, Dedup(xs)[i])
    ensures x in Dedup(xs)[..i + 1]
  {
    var d := Dedup(xs);
    DedupFirstSeenOrder(xs);
    var j :| 0 <= j < |d| && d[j] == x;
    assert j <= i;
    assert d[..i + 1][j] == x;
  }

  /** Input that has no repeats passes through `Dedup` unchanged. */
  lemma {:induction false} DedupOfDistinct<T>(xs: seq<T>)
    requires Distinct(xs)
    ensures Dedup(xs) == xs
  {
    if xs != [] {
      var init, x := xs[..|xs| - 1], xs[|xs| - 1];
      DedupOfDistinct(init);
      assert x !in init;
      assert xs == init + [x];
    }
  }

  // ---------------------------------------------------------------------------
  // Decimal and hexadecimal rendering
  // ---------------------------------------------------------------------------

  type Digit = d: int | 0 <= d < 10

  predicate IsDigitChar(c: char)
  {
    '0' <= c <= '9'
  }

  predicate AllDigits(s: string)
  {
    forall i | 0 <= i < |s| :: IsDigitChar(s[i])
  }

  function DigitChar(d: Digit): (c: char)
    ensures IsDigitChar(c)
  {
    (48 + d) as char
  }

  function DigitValue(c: char): Digit
    requires IsDigitChar(c)
  {
    c as int - 48
  }

  /** Rust's `Display` of an unsigned integer: shortest decimal, no sign. */
  function NatText(n: nat): (r: string)
    ensures |r| >= 1 && AllDigits(r)
  {
    if n < 10 then [DigitChar(n)] else NatText(n / 10) + [DigitChar(n % 10)]
  }

  /** Reads a string of decimal digits back as a number. */
  function ParseNat(s: string): nat
    requires AllDigits(s)
  {
    if s == [] then 0 else ParseNat(s[..|s| - 1]) * 10 + DigitValue(s[|s| - 1])
  }

  lemma {:induction false} ParseNatText(n: nat)
    ensures ParseNat(NatText(n)) == n
  {
    if n >= 10 {
      var s := NatText(n / 10);
      assert (s + [DigitChar(n % 10)])[..|s|] == s;
      ParseNatText(n / 10);
    }
  }

  /** Rust's `Display` of a signed integer: a leading `-` for negatives. */
  function IntText(i: int): string
  {
    if i < 0 then "-" + NatText(-i) else NatText(i)
  }

  function HexDigit(d: int): char
    requires 0 <= d < 16
  {
    "0123456789abcdef"[d]
  }

  /** The low `width` hexadecimal digits of `v`, most significant first, zero padded. */
  function HexText(v: nat, width: nat): (r: string)
    ensures |r| == width
  {
    if width == 0 then "" else HexText(v / 16, width - 1) + [HexDigit(v % 16)]
  }

  // ---------------------------------------------------------------------------
  // UTF-8 byte length (Rust's `String::len`)
  // ---------------------------------------------------------------------------

  /** Number of bytes UTF-8 uses for one Unicode scalar value. */
  function Utf8Width(c: char): nat
  {
    if c as int < 0x80 then 1
    else if c as int < 0x800 then 2
    else if c as int < 0x1_0000 then 3
    else 4
  }

  predicate IsAscii(s: string)
  {
    forall i | 0 <= i < |s| :: s[i] as int < 0x80
  }

  /** Byte length of `s` encoded as UTF-8: between one and four bytes per character. */
  function Utf8Len(s: string): (n: nat)
    ensures |s| <= n <= 4 * |s|
    ensures IsAscii(s) ==> n == |s|
  {
    if s == [] then 0 else Utf8Len(s[..|s| - 1]) + Utf8Width(s[|s| - 1])
  }
}
