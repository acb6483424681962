// Decimal numbers as text: %d of sprintf and sscanf, on sequences of character codes.
module Decimal {
  import opened Wrappers

  predicate IsDigit(c: int) {
    48 <= c <= 57
  }

  function Digits(n: nat): (s: seq<int>)
    ensures s != [] && forall i :: 0 <= i < |s| ==> IsDigit(s[i])
  {
    if n < 10 then [48 + n] else Digits(n / 10) + [48 + n % 10]
  }

  function Show(v: int): seq<int> {
    if v < 0 then [45] + Digits(-v) else Digits(v)
  }

  // The number made of the leading digits, behind those that make n
  function Number(s: seq<int>, n: nat): nat {
    if s != [] && IsDigit(s[0]) then Number(s[1..], 10 * n + s[0] - 48) else n
  }

  function PastDigits(s: seq<int>): seq<int> {
    if s != [] && IsDigit(s[0]) then PastDigits(s[1..]) else s
  }

  predicate IsSpace(c: int) {
    c == 32 || 9 <= c <= 13
  }

  function SkipSpace(s: seq<int>): seq<int> {
    if s != [] && IsSpace(s[0]) then SkipSpace(s[1..]) else s
  }

  datatype Scanned = Scanned(value: int, rest: seq<int>)

  function ScanInt(s: seq<int>): Option<Scanned> {
    var t := SkipSpace(s);
    var u := if t != [] && (t[0] == 45 || t[0] == 43) then t[1..] else t;
    if u == [] || !IsDigit(u[0]) then None
    else
      var n: int := Number(u, 0);
      Some(Scanned(if t[0] == 45 then -n else n, PastDigits(u)))
  }

  lemma {:induction false} DigitsConcat(s: seq<int>, rest: seq<int>, n: nat)
    requires forall i :: 0 <= i < |s| ==> IsDigit(s[i])
    ensures Number(s + rest, n) == Number(rest, Number(s, n))
    ensures PastDigits(s + rest) == PastDigits(rest)
    decreases |s|
  {
    if s == [] {
      assert s + rest == rest;
    } else {
      assert (s + rest)[1..] == s[1..] + rest;
      DigitsConcat(s[1..], rest, 10 * n + s[0] - 48);
    }
  }

  lemma {:induction false} DigitsRead(n: nat)
    ensures Number(Digits(n), 0) == n
  {
    if n < 10 {
      assert [48 + n][1..] == [];
    } else {
      DigitsRead(n / 10);
      DigitsConcat(Digits(n / 10), [48 + n % 10], 0);
      assert [48 + n % 10][1..] == [];
    }
  }

  // A number comes back, whatever follows but another digit.
  lemma ShowRead(v: int, rest: seq<int>)
    requires rest == [] || !IsDigit(rest[0])
    ensures ScanInt(Show(v) + rest) == Some(Scanned(v, rest))
  {
    hide Digits, Number, PastDigits;
    var n := if v < 0 then -v else v;
    DigitsRead(n);
    DigitsConcat(Digits(n), rest, 0);
    NothingMore(rest, n);
    assert v < 0 ==> (Show(v) + rest)[1..] == Digits(n) + rest;
  }

  lemma NothingMore(rest: seq<int>, n: nat)
    requires rest == [] || !IsDigit(rest[0])
    ensures Number(rest, n) == n && PastDigits(rest) == rest
  {
  }

  // A 32-bit number has at most ten digits.
  lemma {:induction false} DigitsAreFew(n: nat, k: nat, power: nat)
    requires k > 0 && power == Power(k) && n < power
    ensures |Digits(n)| <= k
  {
    if n >= 10 {
      assert k > 1;
      DigitsAreFew(n / 10, k - 1, Power(k - 1));
    }
  }

  function Power(k: nat): nat {
    if k == 0 then 1 else 10 * Power(k - 1)
  }

  lemma TenDigits()
    ensures Power(10) == 10000000000
  {
    assert Power(5) == 100000;
  }

  lemma ShowIsShort(v: int)
    requires -0x8000_0000 <= v < 0x8000_0000
    ensures |Show(v)| <= 11
  {
    hide Digits;
    assert Power(10) == 10000000000 by { TenDigits(); }
    DigitsAreFew(if v < 0 then -v else v, 10, 10000000000);
  }

  const FIGURES := "0123456789"
  const BLANKS := " \t\n\r"

  // The digits and the characters that sscanf passes over, which are the vertical tab and the
  // form feed beside those named here
  lemma DigitsAre(c: int)
    ensures IsDigit(c) <==> exists k :: 0 <= k < 10 && FIGURES[k] as int == c
  {
    if IsDigit(c) {
      assert FIGURES[c - 48] as int == c;
    }
  }

  lemma BlanksAre(c: int)
    ensures IsSpace(c) <==> c == 11 || c == 12 || exists k :: 0 <= k < 4 && BLANKS[k] as int == c
  {
    assert BLANKS[0] as int == 32 && BLANKS[1] as int == 9 && BLANKS[2] as int == 10 && BLANKS[3] as int == 13;
  }

  // A plus sign is read, too.
  lemma PlusRead(n: nat, rest: seq<int>)
    requires rest == [] || !IsDigit(rest[0])
    ensures ScanInt([43] + Digits(n) + rest) == Some(Scanned(n, rest))
  {
    hide Digits, Number, PastDigits;
    DigitsRead(n);
    DigitsConcat(Digits(n), rest, 0);
    NothingMore(rest, n);
    assert ([43] + Digits(n) + rest)[1..] == Digits(n) + rest;
  }
}
