/** Placeholder rebinding, internal/store/dialect.go: statements are written once with "?" and
    renumbered for PostgreSQL. */
module Dialects {
  import Decimal

  datatype Dialect = Sqlite | Postgres

  const MARK := '?'
  const DOLLAR := '$'

  /** The statement with its marks numbered from n + 1 on. */
  function NumberFrom(q: string, n: nat): string {
    if q == [] then []
    else if q[0] == MARK then [DOLLAR] + Decimal.FormatNat(n + 1) + NumberFrom(q[1..], n + 1)
    else [q[0]] + NumberFrom(q[1..], n)
  }

  function Rebound(d: Dialect, q: string): string {
    if d == Sqlite then q else NumberFrom(q, 0)
  }

  /** rebind's scan. */
  method Rebind(d: Dialect, q: string) returns (out: string)
    ensures out == Rebound(d, q)
  {
    if d != Postgres {
      return q;
    }
    out := [];
    var n := 0;
    for i := 0 to |q|
      invariant out + NumberFrom(q[i..], n) == NumberFrom(q, 0)
    {
      assert q[i..][1..] == q[i + 1..];
      if q[i] == MARK {
        n := n + 1;
        Reassociate(out, [DOLLAR] + Decimal.FormatNat(n), NumberFrom(q[i + 1..], n));
        out := out + ([DOLLAR] + Decimal.FormatNat(n));
      } else {
        Reassociate(out, [q[i]], NumberFrom(q[i + 1..], n));
        out := out + [q[i]];
      }
    }
  }

  lemma Reassociate<T>(a: seq<T>, b: seq<T>, c: seq<T>)
    ensures a + b + c == a + (b + c)
  {
  }

  // ---- Undoing -------------------------------------------------------------------------

  /** Puts the marks back, knowing that the next placeholder is number n + 1. */
  function Unnumber(s: string, n: nat): string
    decreases |s|
  {
    if s == [] then []
    else if s[0] == DOLLAR && Decimal.FormatNat(n + 1) <= s[1..] then
      [MARK] + Unnumber(s[1 + |Decimal.FormatNat(n + 1)|..], n + 1)
    else [s[0]] + Unnumber(s[1..], n)
  }

  lemma UnnumberNext(n: nat, tail: string)
    ensures Unnumber([DOLLAR] + Decimal.FormatNat(n + 1) + tail, n) == [MARK] + Unnumber(tail, n + 1)
  {
  }

  /** Rebinding a statement without a dollar sign loses nothing. */
  lemma {:induction false} NumberingIsUndone(q: string, n: nat)
    requires DOLLAR !in q
    ensures Unnumber(NumberFrom(q, n), n) == q
  {
    if q != [] {
      if q[0] == MARK {
        NumberingIsUndone(q[1..], n + 1);
        UnnumberNext(n, NumberFrom(q[1..], n + 1));
      } else {
        NumberingIsUndone(q[1..], n);
        assert NumberFrom(q, n)[1..] == NumberFrom(q[1..], n);
      }
      assert q == [q[0]] + q[1..];
    }
  }

  // ---- What a server reads -------------------------------------------------------------

  datatype Item = Char(c: char) | Param(n: nat)

  function DigitRun(s: string): (k: nat)
    ensures k <= |s| && (forall i :: 0 <= i < k ==> Decimal.IsDigit(s[i]))
    ensures k < |s| ==> !Decimal.IsDigit(s[k])
  {
    if s == [] || !Decimal.IsDigit(s[0]) then 0 else 1 + DigitRun(s[1..])
  }

  /** The value of a run of digits after `acc`. */
  function Number(s: string, acc: nat): nat
    requires forall c :: c in s ==> Decimal.IsDigit(c)
  {
    if s == [] then acc else assert s[0] in s; Number(s[1..], acc * 10 + Decimal.DigitValue(s[0]))
  }

  /** A placeholder is a mark, numbered by its position, or a dollar sign and as many digits as
      follow it. */
  function Read(s: string, n: nat): seq<Item>
    decreases |s|
  {
    if s == [] then []
    else if s[0] == MARK then [Param(n + 1)] + Read(s[1..], n + 1)
    else if s[0] == DOLLAR && DigitRun(s[1..]) > 0 then
      var k := DigitRun(s[1..]);
      [Param(Number(s[1..][..k], 0))] + Read(s[1..][k..], n)
    else [Char(s[0])] + Read(s[1..], n)
  }

  predicate MarkBeforeDigit(q: string, i: nat) {
    i + 1 < |q| && q[i] == MARK && Decimal.IsDigit(q[i + 1])
  }

  /** No mark runs into a digit. */
  predicate MarksStandApart(q: string) {
    forall i | 0 <= i < |q| :: !MarkBeforeDigit(q, i)
  }

  lemma {:induction false} NumberAppend(s: string, t: string, acc: nat)
    requires forall c :: c in s + t ==> Decimal.IsDigit(c)
    ensures (forall c :: c in s ==> c in s + t) && (forall c :: c in t ==> c in s + t)
    ensures Number(s + t, acc) == Number(t, Number(s, acc))
  {
    assert forall c :: c in s ==> c in s + t;
    assert forall c :: c in t ==> c in s + t;
    if s == [] {
      assert s + t == t;
    } else {
      assert (s + t)[1..] == s[1..] + t;
      assert forall c :: c in s[1..] + t ==> c in s + t;
      assert s[0] in s;
      NumberAppend(s[1..], t, acc * 10 + Decimal.DigitValue(s[0]));
    }
  }

  lemma {:induction false} FormattedNumber(n: nat)
    ensures Number(Decimal.FormatNat(n), 0) == n
  {
    if n < 10 {
      assert Decimal.FormatNat(n)[1..] == [];
    } else {
      FormattedNumber(n / 10);
      NumberAppend(Decimal.FormatNat(n / 10), [Decimal.Digit(n % 10)], 0);
      assert [Decimal.Digit(n % 10)][1..] == [];
    }
  }

  lemma {:induction false} NumberGrows(s: string, acc: nat)
    requires forall c :: c in s ==> Decimal.IsDigit(c)
    ensures Number(s, acc) >= acc
    ensures s != [] && acc > 0 ==> Number(s, acc) > acc
  {
    if s != [] {
      assert s[0] in s;
      NumberGrows(s[1..], acc * 10 + Decimal.DigitValue(s[0]));
    }
  }

  lemma {:induction false} RunExtends(digits: string, rest: string)
    requires forall c :: c in digits ==> Decimal.IsDigit(c)
    ensures DigitRun(digits + rest) == |digits| + DigitRun(rest)
  {
    if digits == [] {
      assert digits + rest == rest;
    } else {
      assert digits[0] in digits;
      assert (digits + rest)[1..] == digits[1..] + rest;
      RunExtends(digits[1..], rest);
    }
  }

  lemma NumberedStart(q: string, k: nat)
    requires DOLLAR !in q
    ensures q == [] ==> NumberFrom(q, k) == []
    ensures q != [] ==> NumberFrom(q, k) != [] && NumberFrom(q, k)[0] == if q[0] == MARK then DOLLAR else q[0]
  {
  }

  /** Digits of k + 1 followed by a tail: the number read from them is k + 1 if the tail does
      not start with a digit, and larger if it does. */
  lemma DigitsThenTail(k: nat, tail: string)
    ensures var digits := Decimal.FormatNat(k + 1);
            var s := digits + tail;
            var m := DigitRun(s);
            if tail != [] && Decimal.IsDigit(tail[0]) then m > 0 && Number(s[..m], 0) > k + 1
            else m == |digits| && Number(s[..m], 0) == k + 1 && s[m..] == tail
  {
    var digits := Decimal.FormatNat(k + 1);
    RunExtends(digits, tail);
    FormattedNumber(k + 1);
    var run := DigitRun(tail);
    assert (digits + tail)[..|digits| + run] == digits + tail[..run];
    if tail != [] && Decimal.IsDigit(tail[0]) {
      NumberAppend(digits, tail[..run], 0);
      NumberGrows(tail[..run], k + 1);
    } else {
      assert run == 0;
      assert digits + tail[..0] == digits;
    }
  }

  /** The first placeholder of a numbered statement reads as k + 1 if no digit follows its mark
      in the statement, and as something larger if one does. */
  lemma NumberedHead(rest: string, k: nat)
    requires DOLLAR !in rest
    ensures var s := Decimal.FormatNat(k + 1) + NumberFrom(rest, k + 1);
            var m := DigitRun(s);
            if rest != [] && Decimal.IsDigit(rest[0]) then m > 0 && Number(s[..m], 0) > k + 1
            else m == |Decimal.FormatNat(k + 1)| && Number(s[..m], 0) == k + 1 && s[m..] == NumberFrom(rest, k + 1)
  {
    NumberedStart(rest, k + 1);
    DigitsThenTail(k, NumberFrom(rest, k + 1));
  }

  lemma ApartFromTheNext(q: string)
    requires q != []
    ensures MarksStandApart(q) <==> !MarkBeforeDigit(q, 0) && MarksStandApart(q[1..])
  {
    if MarksStandApart(q) {
      forall i | 0 <= i < |q[1..]|
        ensures !MarkBeforeDigit(q[1..], i)
      {
        assert !MarkBeforeDigit(q, i + 1);
      }
    }
    if !MarkBeforeDigit(q, 0) && MarksStandApart(q[1..]) {
      forall i | 0 <= i < |q|
        ensures !MarkBeforeDigit(q, i)
      {
        if i > 0 {
          assert !MarkBeforeDigit(q[1..], i - 1);
        }
      }
    }
  }

  lemma ReadDollar(t: string, n: nat)
    requires DigitRun(t) > 0
    ensures Read([DOLLAR] + t, n) == [Param(Number(t[..DigitRun(t)], 0))] + Read(t[DigitRun(t)..], n)
  {
  }

  lemma NumberedMark(q: string, k: nat, n: nat)
    requires DOLLAR !in q && q != [] && q[0] == MARK
    requires Read(NumberFrom(q[1..], k + 1), n) == Read(q[1..], k + 1) <==> MarksStandApart(q[1..])
    ensures Read(NumberFrom(q, k), n) == Read(q, k) <==> !MarkBeforeDigit(q, 0) && MarksStandApart(q[1..])
  {
    NumberedHead(q[1..], k);
    var t := Decimal.FormatNat(k + 1) + NumberFrom(q[1..], k + 1);
    var m := DigitRun(t);
    assert NumberFrom(q, k) == [DOLLAR] + t;
    ReadDollar(t, n);
    HeadsAndTails(Param(Number(t[..m], 0)), Read(t[m..], n), Param(k + 1), Read(q[1..], k + 1));
  }

  /** A rebound statement reads exactly like the original, each placeholder standing for the
      argument of its position, if and only if no mark runs into a digit. */
  lemma {:induction false} NumberingKeepsMeaning(q: string, k: nat, n: nat)
    requires DOLLAR !in q
    ensures Read(NumberFrom(q, k), n) == Read(q, k) <==> MarksStandApart(q)
  {
    if q != [] {
      ApartFromTheNext(q);
      if q[0] == MARK {
        NumberingKeepsMeaning(q[1..], k + 1, n);
        NumberedMark(q, k, n);
      } else {
        assert NumberFrom(q, k)[1..] == NumberFrom(q[1..], k);
        NumberingKeepsMeaning(q[1..], k, n);
        HeadsAndTails(Char(q[0]), Read(NumberFrom(q[1..], k), n), Char(q[0]), Read(q[1..], k));
      }
    }
  }

  lemma HeadsAndTails(a: Item, s: seq<Item>, b: Item, t: seq<Item>)
    ensures [a] + s == [b] + t <==> a == b && s == t
  {
    if [a] + s == [b] + t {
      assert a == ([a] + s)[0] == ([b] + t)[0];
      assert s == ([a] + s)[1..] == ([b] + t)[1..];
    }
  }
}
