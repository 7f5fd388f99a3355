/** Kelda addresses as text, and the separator-free concatenation that names
    address sets. */
module AddressText {
  import opened Prelude

  /** The address 10.b.c.d. */
  datatype Addr = Addr(b: nat, c: nat, d: nat)

  const DIGITS := "0123456789"

  function Decimal(n: nat): (r: string)
    ensures r != [] && forall i :: 0 <= i < |r| ==> r[i] != '.'
  {
    if n < 10 then [DIGITS[n]] else Decimal(n / 10) + [DIGITS[n % 10]]
  }

  function Text(a: Addr): string {
    "10." + (Decimal(a.b) + "." + (Decimal(a.c) + "." + Decimal(a.d)))
  }

  function Concat(s: seq<Addr>): string {
    if s == [] then "" else Text(s[0]) + Concat(s[1..])
  }

  lemma DigitsDiffer(i: nat, j: nat)
    requires i < 10 && j < 10 && DIGITS[i] == DIGITS[j]
    ensures i == j
  {
  }

  lemma {:induction false} DecimalInjective(m: nat, n: nat)
    requires Decimal(m) == Decimal(n)
    ensures m == n
  {
    var r, s := Decimal(m), Decimal(n);
    assert m >= 10 ==> |r| >= 2;
    assert n >= 10 ==> |s| >= 2;
    if m >= 10 && n >= 10 {
      assert Decimal(m / 10) == r[..|r| - 1] && Decimal(n / 10) == s[..|s| - 1];
      DecimalInjective(m / 10, n / 10);
      assert r[|r| - 1] == DIGITS[m % 10] && s[|s| - 1] == DIGITS[n % 10];
      DigitsDiffer(m % 10, n % 10);
    } else {
      assert r[0] == DIGITS[m] && s[0] == DIGITS[n];
      DigitsDiffer(m, n);
    }
  }

  /** The number that a numeral stands for. */
  ghost function Value(s: string): nat
    requires forall i :: 0 <= i < |s| ==> '0' <= s[i] <= '9'
  {
    if s == "" then 0 else 10 * Value(s[..|s| - 1]) + (s[|s| - 1] - '0') as nat
  }

  lemma DigitIs(n: nat)
    requires n < 10
    ensures '0' <= DIGITS[n] <= '9' && (DIGITS[n] - '0') as nat == n
  {
  }

  /** A number is written in digits that stand for it, without a leading zero. */
  lemma {:induction false} DecimalReads(n: nat)
    ensures forall i :: 0 <= i < |Decimal(n)| ==> '0' <= Decimal(n)[i] <= '9'
    ensures Value(Decimal(n)) == n
    ensures |Decimal(n)| > 1 ==> Decimal(n)[0] != '0'
  {
    DigitIs(n % 10);
    if n >= 10 {
      DecimalReads(n / 10);
      assert Decimal(n)[..|Decimal(n)| - 1] == Decimal(n / 10);
      if n / 10 < 10 {
        DigitIs(n / 10);
      }
    }
  }

  ghost predicate NoDot(s: string) {
    forall i :: 0 <= i < |s| ==> s[i] != '.'
  }

  /** Text without dots is told apart from what follows by the first dot. */
  lemma FirstDot(u: string, v: string, r: string, s: string)
    requires NoDot(u) && NoDot(v) && u + ("." + r) == v + ("." + s)
    ensures u == v && r == s
  {
    var x, y := u + ("." + r), v + ("." + s);
    assert x[|u|] == '.' && y[|v|] == '.';
    assert u == x[..|u|] && v == y[..|v|];
    assert r == x[|u| + 1..] && s == y[|v| + 1..];
  }

  /** What may follow an address in a concatenation. */
  ghost predicate Follows(t: string) {
    t == "" || exists r :: t == "10." + r
  }

  lemma ConcatFollows(s: seq<Addr>)
    ensures Follows(Concat(s))
  {
    if s != [] {
      Unfold(s[0], Concat(s[1..]));
    }
  }

  lemma DotFollows(u: string, r: string)
    requires Follows(r) && r != "" && NoDot(u)
    ensures !NoDot(u + r)
  {
    var r1 :| r == "10." + r1;
    assert (u + r)[|u| + 2] == '.';
  }

  lemma BothContinue(u: string, v: string, r: string, s: string)
    requires NoDot(u) && NoDot(v) && u + ("10." + r) == v + ("10." + s)
    ensures u == v && r == s
  {
    assert u + ("10." + r) == (u + "10") + ("." + r) && v + ("10." + s) == (v + "10") + ("." + s);
    FirstDot(u + "10", v + "10", r, s);
    assert u == (u + "10")[..|u|] && v == (v + "10")[..|v|];
  }

  /** The last number of an address ends where the text ends or two characters
      before the next dot. */
  lemma LastNumber(u: string, v: string, r: string, s: string)
    requires NoDot(u) && NoDot(v) && Follows(r) && Follows(s) && u + r == v + s
    ensures u == v && r == s
  {
    assert u + "" == u && v + "" == v;
    if r != "" && s != "" {
      var r1 :| r == "10." + r1;
      var s1 :| s == "10." + s1;
      BothContinue(u, v, r1, s1);
    } else {
      if r != "" { DotFollows(u, r); }
      if s != "" { DotFollows(v, s); }
    }
  }

  lemma Unfold(a: Addr, r: string)
    ensures Text(a) + r == "10." + (Decimal(a.b) + ("." + (Decimal(a.c) + ("." + (Decimal(a.d) + r)))))
  {
    var tail := Decimal(a.c) + "." + Decimal(a.d);
    assert tail + r == Decimal(a.c) + ("." + (Decimal(a.d) + r));
    assert (Decimal(a.b) + "." + tail) + r == Decimal(a.b) + ("." + (tail + r));
    assert Text(a) + r == "10." + ((Decimal(a.b) + "." + tail) + r);
  }

  lemma Strip(p: string, x: string, y: string)
    requires p + x == p + y
    ensures x == y
  {
    assert x == (p + x)[|p|..] && y == (p + y)[|p|..];
  }

  lemma FirstAddress(a: Addr, b: Addr, r: string, s: string)
    requires Follows(r) && Follows(s) && Text(a) + r == Text(b) + s
    ensures a == b && r == s
  {
    Unfold(a, r);
    Unfold(b, s);
    var a3, b3 := Decimal(a.d) + r, Decimal(b.d) + s;
    var a2, b2 := Decimal(a.c) + ("." + a3), Decimal(b.c) + ("." + b3);
    Strip("10.", Decimal(a.b) + ("." + a2), Decimal(b.b) + ("." + b2));
    FirstDot(Decimal(a.b), Decimal(b.b), a2, b2);
    FirstDot(Decimal(a.c), Decimal(b.c), a3, b3);
    LastNumber(Decimal(a.d), Decimal(b.d), r, s);
    DecimalInjective(a.d, b.d);
    DecimalInjective(a.b, b.b);
    DecimalInjective(a.c, b.c);
  }

  /** Lists of Kelda addresses can be read back from their concatenation. */
  lemma {:induction false} ConcatInjective(x: seq<Addr>, y: seq<Addr>)
    requires Concat(x) == Concat(y)
    ensures x == y
  {
    if x != [] && y != [] {
      ConcatFollows(x[1..]);
      ConcatFollows(y[1..]);
      FirstAddress(x[0], y[0], Concat(x[1..]), Concat(y[1..]));
      ConcatInjective(x[1..], y[1..]);
      assert x == [x[0]] + x[1..] && y == [y[0]] + y[1..];
    }
  }
}
