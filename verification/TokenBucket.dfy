/**
  A token bucket seen from outside: a demand curve, a refill per call, and re-seeds. Relates the
  bucket's own recursion to the classical window condition. Used for the pacing governor.
 */
module TokenBucket {

  // pos[j] is the demand curve before call j, in tokens; call j asks for pos[j + 1] - pos[j].
  datatype Stream = Stream(cap: nat, pos: seq<int>, refill: seq<nat>, reseed: seq<bool>) {
    ghost predicate Valid() { |refill| == |reseed| == |pos| - 1 }

    // What call j finds in the bucket when every earlier demand was granted in full.
    ghost function Held(j: nat): int
      requires Valid() && j < |refill|
    {
      if j == 0 || reseed[j] then cap
      else Min(cap, Held(j - 1) - (pos[j] - pos[j - 1]) + refill[j])
    }

    ghost predicate Granted(j: nat)
      requires Valid() && j < |refill|
    {
      pos[j + 1] - pos[j] <= Held(j)
    }

    ghost predicate AllGranted(n: nat)
      requires Valid() && n <= |refill|
    {
      forall j :: 0 <= j < n ==> Granted(j)
    }

    // The refills of calls i+1..j.
    ghost function Credit(i: nat, j: nat): nat
      requires Valid() && i <= j < |refill|
      decreases j
    {
      if i == j then 0 else Credit(i, j - 1) + refill[j]
    }

    ghost predicate NoReseed(i: nat, j: nat)
      requires Valid() && i <= j < |refill|
    {
      forall m :: i < m <= j ==> !reseed[m]
    }

    // The demand of calls i..j fits one bucket and the refills inside the window.
    ghost predicate WindowFits(i: nat, j: nat)
      requires Valid() && i <= j < |refill|
    {
      pos[j + 1] - pos[i] <= cap + Credit(i, j)
    }

    ghost predicate Conforms(n: nat)
      requires Valid() && n <= |refill|
    {
      forall i, j :: 0 <= i <= j < n && NoReseed(i, j) ==> WindowFits(i, j)
    }
  }

  function Min(a: int, b: int): int { if a < b then a else b }

  // The bucket is the tightest of the windows that end at call j.
  lemma {:induction false} HeldIsTightest(s: Stream, j: nat) returns (anchor: nat)
    requires s.Valid() && j < |s.refill|
    ensures anchor <= j && s.NoReseed(anchor, j)
    ensures s.Held(j) == s.cap + s.Credit(anchor, j) - (s.pos[j] - s.pos[anchor])
    ensures forall i :: 0 <= i <= j && s.NoReseed(i, j) ==>
              s.Held(j) <= s.cap + s.Credit(i, j) - (s.pos[j] - s.pos[i])
  {
    anchor := j;
    if j > 0 {
      var before := HeldIsTightest(s, j - 1);
      forall i | 0 <= i < j && s.NoReseed(i, j)
        ensures s.Held(j) <= s.cap + s.Credit(i, j) - (s.pos[j] - s.pos[i])
      {
        assert s.NoReseed(i, j - 1);
      }
      if !s.reseed[j] && s.Held(j) < s.cap { anchor := before; }
    }
  }

  /** Every demand is granted in full if and only if every window between re-seeds fits. */
  lemma {:induction false} GrantedIffConforms(s: Stream, n: nat)
    requires s.Valid() && n <= |s.refill|
    ensures s.AllGranted(n) <==> s.Conforms(n)
  {
    if n > 0 {
      var j := n - 1;
      GrantedIffConforms(s, j);
      var anchor := HeldIsTightest(s, j);
      assert s.Conforms(n) ==> s.Conforms(j) && s.WindowFits(anchor, j);
      if s.Granted(j) && s.Conforms(j) {
        forall i | 0 <= i <= j && s.NoReseed(i, j) ensures s.WindowFits(i, j) {
          assert s.Held(j) <= s.cap + s.Credit(i, j) - (s.pos[j] - s.pos[i]);
        }
      }
    }
  }

  // ----- spending over a run --------------------------------------------------------------

  function Total(credits: seq<nat>, k: nat): nat
    requires k <= |credits|
  {
    if k == 0 then 0 else Total(credits, k - 1) + credits[k - 1]
  }

  // If no call spends more than it found and was credited, neither does the run.
  lemma {:induction false} RunSpends(spent: seq<int>, left: seq<nat>, credits: seq<nat>, k: nat)
    requires |spent| == |left| == |credits| + 1 && k <= |credits|
    requires forall i :: 0 <= i < |credits| ==> spent[i + 1] - spent[i] + left[i + 1] <= left[i] + credits[i]
    ensures spent[k] - spent[0] + left[k] <= left[0] + Total(credits, k)
  {
    if k > 0 {
      RunSpends(spent, left, credits, k - 1);
      var i := k - 1;
      assert spent[i + 1] - spent[i] + left[i + 1] <= left[i] + credits[i];
    }
  }
}
