// Python's str(n) and JavaScript's String(n) on integers, and the order in
// which both languages compare strings.
module Decimal {

  function Digit(d: nat): char
    requires d < 10
  {
    ('0' as int + d) as char
  }

  function NatStr(n: nat): string {
    if n < 10 then [Digit(n)] else NatStr(n / 10) + [Digit(n % 10)]
  }

  function Str(n: int): string {
    if n < 0 then "-" + NatStr(-n) else NatStr(n)
  }

  // Strict lexicographic order by code point.
  predicate Before(a: string, b: string) {
    |b| > 0 && (|a| == 0 || a[0] < b[0] || (a[0] == b[0] && Before(a[1..], b[1..])))
  }

  lemma {:induction false} NatStrInjective(m: nat, n: nat)
    requires NatStr(m) == NatStr(n)
    ensures m == n
  {
    var s := NatStr(m);
    assert s[|s| - 1] == Digit(m % 10) && s[|s| - 1] == Digit(n % 10);
    NatStrShape(m);
    NatStrShape(n);
    if m >= 10 {
      assert s[..|s| - 1] == NatStr(m / 10) && s[..|s| - 1] == NatStr(n / 10);
      NatStrInjective(m / 10, n / 10);
    }
  }

  lemma {:induction false} NatStrShape(n: nat)
    ensures |NatStr(n)| >= 1
    ensures |NatStr(n)| == 1 <==> n < 10
    ensures NatStr(n)[0] != '-'
  {
    if n >= 10 {
      NatStrShape(n / 10);
    }
  }

  // Different integers are written differently.
  lemma StrInjective(m: int, n: int)
    requires Str(m) == Str(n)
    ensures m == n
  {
    NatStrShape(if m < 0 then -m else m);
    NatStrShape(if n < 0 then -n else n);
    if m < 0 {
      assert Str(m)[1..] == NatStr(-m) && Str(n)[1..] == NatStr(-n);
      NatStrInjective(-m, -n);
    } else {
      NatStrInjective(m, n);
    }
  }

  // What a text of digits stands for.
  function Reading(s: string): int {
    if s == "" then 0 else 10 * Reading(s[..|s| - 1]) + (s[|s| - 1] as int - '0' as int)
  }

  predicate IsDigit(c: char) {
    '0' <= c <= '9'
  }

  lemma {:induction false} NatStrReads(n: nat)
    ensures Reading(NatStr(n)) == n && forall i :: 0 <= i < |NatStr(n)| ==> IsDigit(NatStr(n)[i])
    ensures NatStr(n) != "" && (n > 0 ==> NatStr(n)[0] != '0')
  {
    if n >= 10 {
      NatStrReads(n / 10);
    } else {
      assert Reading([Digit(n)]) == 10 * Reading([]) + n;
    }
  }

  // An integer is written in digits that stand for it, without a leading zero,
  // behind a minus if it is negative.
  lemma StrReads(n: int) returns (digits: string)
    ensures Str(n) == (if n < 0 then "-" else "") + digits && Reading(digits) == if n < 0 then -n else n
    ensures digits != "" && (n == 0 || digits[0] != '0') && (n == 0 ==> digits == "0")
    ensures forall i :: 0 <= i < |digits| ==> IsDigit(digits[i])
  {
    digits := NatStr(if n < 0 then -n else n);
    NatStrReads(if n < 0 then -n else n);
  }

  // The texts agree up to place k, where the first one ends or has the smaller
  // character.
  ghost predicate PartAt(a: string, b: string, k: nat) {
    k <= |a| && k < |b| && a[..k] == b[..k] && (k == |a| || a[k] < b[k])
  }

  lemma {:induction false} BeforeIff(a: string, b: string)
    ensures Before(a, b) <==> exists k: nat :: PartAt(a, b, k)
  {
    if |a| == 0 || |b| == 0 || a[0] != b[0] {
      assert |b| > 0 && (|a| == 0 || a[0] < b[0]) ==> PartAt(a, b, 0);
      forall k: nat | PartAt(a, b, k) ensures k == 0 {
        SameStart(a, b, k);
      }
    } else {
      BeforeIff(a[1..], b[1..]);
      forall k: nat ensures PartAt(a[1..], b[1..], k) <==> PartAt(a, b, k + 1) {
        PartBehind(a, b, k);
      }
      assert !PartAt(a, b, 0);
      if k: nat :| PartAt(a, b, k) {
        assert PartAt(a[1..], b[1..], k - 1);
      }
    }
  }

  lemma SameStart(a: string, b: string, k: nat)
    ensures 0 < k <= |a| && k <= |b| && a[..k] == b[..k] ==> a[0] == b[0]
  {
    if 0 < k <= |a| && k <= |b| {
      assert a[..k][0] == a[0] && b[..k][0] == b[0];
    }
  }

  lemma PartBehind(a: string, b: string, k: nat)
    requires a != "" && b != "" && a[0] == b[0]
    ensures PartAt(a[1..], b[1..], k) <==> PartAt(a, b, k + 1)
  {
    if k < |a| && k < |b| {
      assert a[..k + 1] == [a[0]] + a[1..][..k] && b[..k + 1] == [b[0]] + b[1..][..k];
    }
  }

  lemma {:induction false} BeforeTotal(a: string, b: string)
    ensures Before(a, b) || Before(b, a) || a == b
  {
    if |a| > 0 && |b| > 0 && a[0] == b[0] {
      BeforeTotal(a[1..], b[1..]);
      assert a == [a[0]] + a[1..] && b == [b[0]] + b[1..];
    }
  }

  lemma {:induction false} BeforeTransitive(a: string, b: string, c: string)
    requires Before(a, b) && Before(b, c)
    ensures Before(a, c)
  {
    if |a| > 0 && a[0] == b[0] == c[0] {
      BeforeTransitive(a[1..], b[1..], c[1..]);
    }
  }

  lemma {:induction false} BeforeIrreflexive(a: string)
    ensures !Before(a, a)
  {
    if |a| > 0 {
      BeforeIrreflexive(a[1..]);
    }
  }
}
