/** Decimal numbers as text, letters without their case, and the order of text. */
module Text {
  predicate IsDigits(s: string) { forall i | 0 <= i < |s| :: '0' <= s[i] <= '9' }

  /** The number a run of digits writes, leading zeros allowed. */
  function NumberOf(s: string): nat
    requires IsDigits(s)
  {
    if s == "" then 0 else 10 * NumberOf(s[..|s| - 1]) + (s[|s| - 1] as int - '0' as int)
  }

  /** A number as it is printed. */
  function Decimal(n: nat): (s: string)
    ensures s != "" && IsDigits(s)
  {
    var last := [('0' as int + n % 10) as char];
    if n < 10 then last else Decimal(n / 10) + last
  }

  lemma {:induction false} NumberOfDecimal(n: nat)
    ensures NumberOf(Decimal(n)) == n
  {
    var s := Decimal(n);
    if n < 10 {
      assert s[..0] == "";
    } else {
      NumberOfDecimal(n / 10);
      assert s[..|s| - 1] == Decimal(n / 10);
    }
  }

  /** Different numbers print differently. */
  lemma DecimalInjective(m: nat, n: nat)
    requires Decimal(m) == Decimal(n)
    ensures m == n
  {
    NumberOfDecimal(m);
    NumberOfDecimal(n);
  }

  /** ASCII letters in lower case, everything else as it is. */
  function Lower(s: string): string {
    if s == "" then "" else [if 'A' <= s[0] <= 'Z' then (s[0] as int + 32) as char else s[0]] + Lower(s[1..])
  }

  lemma {:induction false} LowerAt(s: string)
    ensures |Lower(s)| == |s|
    ensures forall i | 0 <= i < |s| ::
              Lower(s)[i] == if 'A' <= s[i] <= 'Z' then (s[i] as int + 32) as char else s[i]
  {
    if s != "" {
      LowerAt(s[1..]);
    }
  }

  lemma LowerOfLower(s: string)
    requires forall i | 0 <= i < |s| :: !('A' <= s[i] <= 'Z')
    ensures Lower(s) == s
  {
    LowerAt(s);
  }

  /** Text in the order of its characters. */
  predicate NotAfter(a: string, b: string) {
    a == "" || (b != "" && (a[0] < b[0] || (a[0] == b[0] && NotAfter(a[1..], b[1..]))))
  }

  lemma {:induction false} OrderIsTotal(a: string, b: string)
    ensures NotAfter(a, b) || NotAfter(b, a)
    ensures NotAfter(a, b) && NotAfter(b, a) ==> a == b
  {
    if a != "" && b != "" && a[0] == b[0] {
      OrderIsTotal(a[1..], b[1..]);
      assert a == [a[0]] + a[1..] && b == [b[0]] + b[1..];
    }
  }

  lemma {:induction false} OrderIsTransitive(a: string, b: string, c: string)
    requires NotAfter(a, b) && NotAfter(b, c)
    ensures NotAfter(a, c)
  {
    if a != "" && a[0] == b[0] == c[0] { OrderIsTransitive(a[1..], b[1..], c[1..]); }
  }

  predicate IsLeast(p: string, paths: set<string>) {
    p in paths && forall q | q in paths :: NotAfter(p, q)
  }

  lemma {:induction false} HasLeast(paths: set<string>)
    requires paths != {}
    ensures exists p :: IsLeast(p, paths)
  {
    var x :| x in paths;
    if paths == {x} {
      OrderIsTotal(x, x);
      assert IsLeast(x, paths);
    } else {
      HasLeast(paths - {x});
      var y :| IsLeast(y, paths - {x});
      OrderIsTotal(x, y);
      OrderIsTotal(x, x);
      if NotAfter(x, y) {
        forall q | q in paths ensures NotAfter(x, q) {
          if q != x { OrderIsTransitive(x, y, q); }
        }
        assert IsLeast(x, paths);
      } else {
        assert IsLeast(y, paths);
      }
    }
  }

  predicate IsGreatest(p: string, paths: set<string>) {
    p in paths && forall q | q in paths :: NotAfter(q, p)
  }

  lemma {:induction false} HasGreatest(paths: set<string>)
    requires paths != {}
    ensures exists p :: IsGreatest(p, paths)
  {
    var x :| x in paths;
    OrderIsTotal(x, x);
    if paths == {x} {
      assert IsGreatest(x, paths);
    } else {
      HasGreatest(paths - {x});
      var y :| IsGreatest(y, paths - {x});
      OrderIsTotal(x, y);
      if NotAfter(y, x) {
        forall q | q in paths ensures NotAfter(q, x) {
          if q != x { OrderIsTransitive(q, y, x); }
        }
        assert IsGreatest(x, paths);
      } else {
        assert IsGreatest(y, paths);
      }
    }
  }
}
