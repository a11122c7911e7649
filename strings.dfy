/** The few JavaScript string operations the core relies on: number to
    decimal text (template literals, `Date.now().toString()`),
    `toLowerCase` restricted to ASCII, and `includes`. */
module Strings {

  /** The decimal digit character for `d`. */
  function Digit(d: nat): char
    requires d < 10
  {
    ('0' as int + d) as char
  }

  /** The decimal text of a non-negative integer, without leading zeros. */
  function NatToString(n: nat): (r: string)
    ensures |r| >= 1
    ensures n >= 10 ==> |r| >= 2
  {
    if n < 10 then [Digit(n)] else NatToString(n / 10) + [Digit(n % 10)]
  }

  /** Different numbers have different decimal texts. */
  lemma {:induction false} NatToStringInjective(a: nat, b: nat)
    requires NatToString(a) == NatToString(b)
    ensures a == b
  {
    if a >= 10 && b >= 10 {
      var ra, rb := NatToString(a), NatToString(b);
      assert ra[|ra| - 1] == rb[|rb| - 1];
      assert a % 10 == b % 10;
      assert ra[..|ra| - 1] == NatToString(a / 10);
      assert rb[..|rb| - 1] == NatToString(b / 10);
      NatToStringInjective(a / 10, b / 10);
    }
  }

  /** `String(n)` for an integer: a minus sign before negative numbers. */
  function IntToString(n: int): string {
    if n < 0 then "-" + NatToString(-n) else NatToString(n)
  }

  /** `toLowerCase` on one character, for the ASCII letters. */
  function LowerChar(c: char): char {
    if 'A' <= c <= 'Z' then (c as int + 32) as char else c
  }

  /** `s.toLowerCase()`, ASCII letters only. */
  function ToLower(s: string): string {
    seq(|s|, i requires 0 <= i < |s| => LowerChar(s[i]))
  }

  /** `h.includes(n)`: `n` occurs in `h` as a contiguous block. */
  function Includes(h: string, n: string): bool
    decreases |h|
  {
    if |n| > |h| then false
    else if h[..|n|] == n then true
    else Includes(h[1..], n)
  }

  /** `n` occurs in `h` starting at position `i`. */
  predicate OccursAt(h: string, n: string, i: int) {
    0 <= i && i + |n| <= |h| && h[i..i + |n|] == n
  }

  /** Past the first position, occurrences in `h` are those in its tail, shifted by one. */
  lemma OccursShift(h: string, n: string, i: int)
    requires h != [] && i > 0
    ensures OccursAt(h, n, i) <==> OccursAt(h[1..], n, i - 1)
  {
    if i + |n| <= |h| {
      assert h[i..i + |n|] == h[1..][i - 1..i - 1 + |n|];
    }
  }

  /** `Includes` finds `n` exactly when it starts at some position of `h`. */
  lemma {:induction false} IncludesIff(h: string, n: string)
    ensures Includes(h, n) <==> exists i :: OccursAt(h, n, i)
    decreases |h|
  {
    if |n| > |h| {
      forall i ensures !OccursAt(h, n, i) { }
    } else if h[..|n|] == n {
      assert OccursAt(h, n, 0);
    } else {
      assert !OccursAt(h, n, 0) by {
        assert h[0..|n|] == h[..|n|];
      }
      IncludesIff(h[1..], n);
      if Includes(h[1..], n) {
        var i :| OccursAt(h[1..], n, i);
        OccursShift(h, n, i + 1);
      } else {
        forall i | OccursAt(h, n, i) ensures false {
          OccursShift(h, n, i);
        }
      }
    }
  }

  /** Every string includes the empty string. */
  lemma IncludesEmpty(h: string)
    ensures Includes(h, [])
  {
  }
}
