/** Integers cut down to a byte. The byte is counted up from zero, which keeps integers and bit
    vectors apart in proofs; ByteOfCut says that it is the remainder by 256. */
module ByteCut {

  function ByteOf(n: int): bv8
    decreases n % 256
  {
    if n % 256 == 0 then 0 else ByteOf(n - 1) + 1
  }

  lemma Successor(b: bv8)
    requires b != 0xFF
    ensures (b + 1) as int == b as int + 1
  {
  }

  lemma Predecessor(n: int)
    requires n % 256 != 0
    ensures (n - 1) % 256 == n % 256 - 1
  {
  }

  lemma CountedUp(n: int)
    ensures ByteOf(n) == if n % 256 == 0 then 0 else ByteOf(n - 1) + 1
  {
  }

  /** The cast to a byte keeps the low eight bits, negative numbers included. */
  lemma {:induction false} ByteOfCut(n: int)
    ensures ByteOf(n) as int == n % 256
    decreases n % 256
  {
    hide ByteOf;
    CountedUp(n);
    if n % 256 != 0 {
      Predecessor(n);
      ByteOfCut(n - 1);
      Successor(ByteOf(n - 1));
    }
  }
}
