/**
  Token arithmetic of the pacing governor (c/jts-ring-ioplug/jts_ring_shm.h).
  A token is 1/1024 of a frame. `RefillTokens` follows the C code with every
  64-bit operation wrapping; `ExactRefill` is the same quantity computed over
  the integers, without the split on the second.
 */
module PaceTokens {
  const U64: nat := 0x1_0000_0000_0000_0000
  const NS_PER_SEC: nat := 1_000_000_000
  const TOKENS_PER_FRAME: nat := 1024
  const HEADROOM_DIVISOR: nat := 400
  const RATE_HZ: nat := 48000

  function Wrap(x: nat): nat { x % U64 }

  function RefillTokens(elapsedNs: nat, rate: nat): nat {
    if rate == 0 then 0 else
    var secs := elapsedNs / NS_PER_SEC;
    var rem := elapsedNs % NS_PER_SEC;
    var scaled := Wrap(rate * TOKENS_PER_FRAME);
    var base := Wrap(Wrap(secs * scaled) + Wrap(rem * scaled) / NS_PER_SEC);
    Wrap(base + base / HEADROOM_DIVISOR)
  }

  function ExactBase(elapsedNs: nat, rate: nat): nat {
    elapsedNs * (rate * TOKENS_PER_FRAME) / NS_PER_SEC
  }

  function ExactRefill(elapsedNs: nat, rate: nat): nat {
    ExactBase(elapsedNs, rate) + ExactBase(elapsedNs, rate) / HEADROOM_DIVISOR
  }

  // Splitting on the second is harmless over the integers, at every rate.
  lemma SplitBase(elapsedNs: nat, rate: nat)
    ensures (elapsedNs / NS_PER_SEC) * (rate * TOKENS_PER_FRAME)
            + (elapsedNs % NS_PER_SEC) * (rate * TOKENS_PER_FRAME) / NS_PER_SEC
            == ExactBase(elapsedNs, rate)
  {
  }

  /** No 64-bit operation of the refill wraps at 48 kHz, for any 64-bit elapsed time. */
  lemma RefillIsExact(elapsedNs: nat)
    requires elapsedNs < U64
    ensures RefillTokens(elapsedNs, RATE_HZ) == ExactRefill(elapsedNs, RATE_HZ) < U64 / 20
  {
    SplitBase(elapsedNs, RATE_HZ);
    var secs, rem := elapsedNs / NS_PER_SEC, elapsedNs % NS_PER_SEC;
    var whole, part := secs * 49_152_000, rem * 49_152_000;
    assert secs <= 18_446_744_073;
    assert whole < 910_000_000_000_000_000 && part / NS_PER_SEC < 49_152_000;
    NoWrap(whole);
    NoWrap(part);
    var base := ExactBase(elapsedNs, RATE_HZ);
    assert base == whole + part / NS_PER_SEC;
    NoWrap(base);
    NoWrap(base + base / HEADROOM_DIVISOR);
  }

  /** One second credits the nominal 48000 frames and a quarter percent. */
  lemma OneSecondOfCredit()
    ensures RefillTokens(NS_PER_SEC, RATE_HZ) == 48_120 * TOKENS_PER_FRAME
  {
    RefillIsExact(NS_PER_SEC);
  }

  lemma NoWrap(x: nat)
    ensures x < U64 ==> Wrap(x) == x
  {
  }

  lemma Distribute(a: nat, b: nat, k: nat)
    ensures (a + b) * k == a * k + b * k
  {
  }

  lemma MulMono(a: nat, b: nat, d: nat)
    ensures a <= b ==> a * d <= b * d
  {
  }

  lemma DivUnique(y: nat, q: nat, r: nat, d: nat)
    requires d > 0 && r < d && y == q * d + r
    ensures y / d == q
  {
    var k := y / d;
    assert k * d <= y < k * d + d;
    assert (k + 1) * d == k * d + d && (q + 1) * d == q * d + d;
    MulMono(k + 1, q, d);
    MulMono(q + 1, k, d);
  }

  // q quotients plus r left over, with r below two divisors, carries at most once.
  lemma DivCarry(y: nat, q: nat, r: nat, d: nat)
    requires d > 0 && r < 2 * d && y == q * d + r
    ensures y / d == if r < d then q else q + 1
  {
    if r < d {
      DivUnique(y, q, r, d);
    } else {
      Distribute(q, 1, d);
      DivUnique(y, q + 1, r - d, d);
    }
  }

  lemma FloorAdd(x: nat, y: nat, d: nat)
    requires d > 0
    ensures x / d + y / d <= (x + y) / d <= x / d + y / d + 1
    ensures (x + y + 1) / d <= x / d + y / d + 1
  {
    var m, n, r := x / d, y / d, x % d + y % d;
    Distribute(m, n, d);
    DivCarry(x + y, m + n, r, d);
    DivCarry(x + y + 1, m + n, r + 1, d);
  }

  /** Splitting an interval never creates credit and loses at most two tokens. */
  lemma RefillSplit(a: nat, b: nat, rate: nat)
    ensures ExactRefill(a, rate) + ExactRefill(b, rate) <= ExactRefill(a + b, rate)
         <= ExactRefill(a, rate) + ExactRefill(b, rate) + 2
  {
    var scaled := rate * TOKENS_PER_FRAME;
    Distribute(a, b, scaled);
    FloorAdd(a * scaled, b * scaled, NS_PER_SEC);
    var x, y := ExactBase(a, rate), ExactBase(b, rate);
    FloorAdd(x, y, HEADROOM_DIVISOR);
    assert ExactBase(a + b, rate) == x + y || ExactBase(a + b, rate) == x + y + 1;
  }

  function Sum(xs: seq<nat>): nat {
    if xs == [] then 0 else xs[0] + Sum(xs[1..])
  }

  function TotalRefill(dts: seq<nat>, rate: nat): nat {
    if dts == [] then 0 else ExactRefill(dts[0], rate) + TotalRefill(dts[1..], rate)
  }

  /** Polling an interval in any number of pieces credits at most what one poll would, and at
      most two tokens less per extra poll. */
  lemma {:induction false} PollingNeverCreatesCredit(dts: seq<nat>, rate: nat)
    requires dts != []
    ensures TotalRefill(dts, rate) <= ExactRefill(Sum(dts), rate) <= TotalRefill(dts, rate) + 2 * (|dts| - 1)
  {
    if |dts| == 1 {
      assert dts[1..] == [];
    } else {
      PollingNeverCreatesCredit(dts[1..], rate);
      RefillSplit(dts[0], Sum(dts[1..]), rate);
    }
  }
}
