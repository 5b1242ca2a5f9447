/** Small things several parts of the model share. */
module Basics {

  datatype Option<+A> = None | Some(value: A)

  function Min(a: int, b: int): int { if a < b then a else b }

  function Max(a: int, b: int): int { if a < b then b else a }

  predicate IsInt(v: int) { -0x8000_0000 <= v < 0x8000_0000 }

  /** What a C++ int keeps of a wider integer: its low 32 bits, in two's complement. */
  function IntOf(n: int): (v: int)
    ensures IsInt(v)
    ensures IsInt(n) ==> v == n
  {
    var m := n % 0x1_0000_0000;
    if m < 0x8000_0000 then m else m - 0x1_0000_0000
  }

  lemma IntOfIsExactIff(n: nat)
    ensures IntOf(n) == n <==> n < 0x8000_0000
  {
  }

  /** Nothing but multiples of 2^32 is lost. */
  lemma IntOfKeepsLowBits(n: int)
    ensures (n - IntOf(n)) % 0x1_0000_0000 == 0
  {
  }

  function Digit(d: nat): char
    requires d < 10
  {
    "0123456789"[d]
  }

  lemma {:induction false} LeastAbove(s: set<nat>) returns (p: nat)
    ensures forall x :: x in s ==> x < p
  {
    if s == {} {
      p := 0;
    } else {
      var x :| x in s;
      var q := LeastAbove(s - {x});
      p := if x < q then q else x + 1;
      forall y | y in s ensures y < p {
        if y != x { assert y in s - {x}; }
      }
    }
  }
}
