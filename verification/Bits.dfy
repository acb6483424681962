// Products of 32-bit words by shifts and sums.
module Bits {
  function Plus(x: bv32, y: bv32): bv32 { x + y }

  function Product(x: bv32, y: bv32): bv32 { x * y }

  lemma Commutes(x: bv32, y: bv32)
    ensures Product(x, y) == Product(y, x)
  {
  }

  // 134775813 is 2^27 + 2^19 + 2^15 + 2^10 + 2^2 + 1.
  function Times(x: bv32): bv32 {
    x + (x << 2) + (x << 10) + (x << 15) + (x << 19) + (x << 27)
  }

  predicate Even(x: bv32) { x & 1 == 0 }

  function SquareAndMore(t: bv32): bv32 { t * t + t }

  function SquareAndLess(t: bv32): bv32 { t * t - t }

  // t(t + 1) for an even t and t(t - 1) for an odd one
  function Pronic(t: bv32): bv32 {
    if Even(t) then SquareAndMore(t) else SquareAndLess(t)
  }

  lemma SumOfShifts(x: bv32)
    ensures x * 134775813 == x + (x << 2) + (x << 10) + (x << 15) + (x << 19) + (x << 27)
  {
  }

  lemma TimesIs(x: bv32)
    ensures Product(x, 134775813) == Times(x)
  {
    SumOfShifts(x);
  }

  lemma TimesNext(t: bv32, n: bv32)
    requires n == t + 1
    ensures Product(t, n) == SquareAndMore(t)
  {
  }

  lemma TimesPrevious(t: bv32, n: bv32)
    requires n == t - 1
    ensures Product(t, n) == SquareAndLess(t)
  {
  }

  lemma NeighbourIs(t: bv32)
    ensures t ^ 1 == if Even(t) then t + 1 else t - 1
  {
  }

  lemma PronicIs(t: bv32, neighbour: bv32)
    requires neighbour == t ^ 1
    ensures Product(t, neighbour) == Pronic(t)
  {
    hide Product, SquareAndMore, SquareAndLess, Even;
    NeighbourIs(t);
    if Even(t) {
      TimesNext(t, neighbour);
    } else {
      TimesPrevious(t, neighbour);
    }
  }

  // Nothing is lost: the factor is odd.
  function Divided(y: bv32): bv32 { y * 3645876429 }

  lemma Undone(x: bv32)
    ensures Divided(x * 134775813) == x
  {
  }

  lemma UndoneProduct(x: bv32, y: bv32)
    requires y == Product(x, 134775813)
    ensures Divided(y) == x
  {
    hide Divided;
    Undone(x);
  }

  lemma ProductApart(x: bv32, y: bv32)
    requires Product(x, 134775813) == Product(y, 134775813)
    ensures x == y
  {
    hide Product, Divided;
    UndoneProduct(x, Product(x, 134775813));
    UndoneProduct(y, Product(y, 134775813));
  }

  lemma SumApart(x: bv32, y: bv32, z: bv32)
    requires x + z == y + z
    ensures x == y
  {
  }

  lemma PlusApart(x: bv32, y: bv32, z: bv32)
    requires Plus(x, z) == Plus(y, z)
    ensures x == y
  {
    SumApart(x, y, z);
  }

  // The lower half of a word, and a word with its bit of weight 2
  function Half(x: bv32): bv32 { (x << 16) >> 16 }

  function WithTwo(x: bv32): bv32 { if x & 2 == 0 then x + 2 else x }

  lemma HalfIs(x: bv32)
    ensures x & 0xffff == Half(x)
  {
  }

  lemma WithTwoIs(x: bv32)
    ensures x | 2 == WithTwo(x)
  {
  }
}
