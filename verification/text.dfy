/** String building blocks shared by the column, header and menu layouts. */
module Text {

  function Max(a: int, b: int): int {
    if a >= b then a else b
  }

  predicate AllSpaces(s: string) {
    forall i :: 0 <= i < |s| ==> s[i] == ' '
  }

  /** The run built by appending " " once per turn of `for (i = 0; i < n; i++)`: nothing when `n` is not positive. */
  function Spaces(n: int): (s: string)
    ensures |s| == Max(n, 0)
    ensures AllSpaces(s)
    decreases n
  {
    if n <= 0 then "" else Spaces(n - 1) + " "
  }

  /** `s` appended `n` times, as a `for (i = 0; i < n; i++)` loop appending `s` builds it. */
  function Repeat(s: string, n: int): (r: string)
    ensures |r| == |s| * Max(n, 0)
    decreases n
  {
    if n <= 0 then "" else Repeat(s, n - 1) + s
  }

  /** Repeating splits at any point: `a + b` copies are `a` copies followed by `b` copies. */
  lemma {:induction false} RepeatAdd(s: string, a: nat, b: nat)
    ensures Repeat(s, a + b) == Repeat(s, a) + Repeat(s, b)
    decreases b
  {
    if b > 0 {
      RepeatAdd(s, a, b - 1);
      assert Repeat(s, a + b) == Repeat(s, a + b - 1) + s;
    }
  }

  /** Repeating one character gives a run of that character only. */
  lemma {:induction false} RepeatChar(c: char, n: int)
    ensures forall k :: 0 <= k < |Repeat([c], n)| ==> Repeat([c], n)[k] == c
    decreases n
  {
    if n > 0 {
      RepeatChar(c, n - 1);
    }
  }

  /** The strings of `ss` written one after another. */
  function Concat(ss: seq<string>): string {
    if |ss| == 0 then "" else ss[0] + Concat(ss[1..])
  }

  /** Writing `a` then `b` writes the same text as writing `a + b`. */
  lemma {:induction false} ConcatAppend(a: seq<string>, b: seq<string>)
    ensures Concat(a + b) == Concat(a) + Concat(b)
    decreases |a|
  {
    if |a| > 0 {
      assert (a + b)[1..] == a[1..] + b;
      ConcatAppend(a[1..], b);
    } else {
      assert a + b == b;
    }
  }

  /** Writing one more string at the end. */
  lemma ConcatSnoc(a: seq<string>, s: string)
    ensures Concat(a + [s]) == Concat(a) + s
  {
    ConcatAppend(a, [s]);
    assert Concat([s]) == s + Concat([]);
  }
}
