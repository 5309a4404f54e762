/** Slot indexing of the ring: sequence number k lives in slot k modulo the number of slots. */
module Slots {
  type Payload = seq<int>

  function Slot(n: nat, k: nat): (i: nat)
    requires n > 0
    ensures i < n
  {
    k % n
  }

  lemma NoMultipleBelow(t: int, n: nat)
    ensures !(0 < t * n < n)
  {
  }

  // Two sequence numbers less than one lap apart use different slots.
  lemma SlotsDiffer(n: nat, a: nat, b: nat)
    requires a < b < a + n
    ensures Slot(n, a) != Slot(n, b)
  {
    NoMultipleBelow(b / n - a / n, n);
    assert b - a == (b / n - a / n) * n + (b % n - a % n);
  }
}
