/** Scanning a ring of slots from a moving start position.

The NoC arbiter's round-robin modes and the DMA channel selection all look for the first
slot that satisfies some condition, starting at a remembered position and wrapping around.
`Nearest` is that search; `Dist` is the number of steps the scan takes to reach a slot, and it
is the measure of every waiting-time bound in this project. */
module CyclicScan {

  /** The slot `k` steps after `start` on a ring of `n` slots. */
  function At(n: nat, start: nat, k: nat): (i: nat)
    requires start < n && k <= n
    ensures i < n
  {
    if start + k < n then start + k else start + k - n
  }

  function Next(n: nat, i: nat): (j: nat)
    requires i < n
    ensures j < n
  {
    At(n, i, 1)
  }

  /** The number of steps from `a` forward to `b`. */
  function Dist(n: nat, a: nat, b: nat): (d: nat)
    requires a < n && b < n
    ensures d < n && At(n, a, d) == b
  {
    if a <= b then b - a else b - a + n
  }

  /** The programs write `(start + k) % n`; on the offsets they use this is `At`. */
  lemma ModIsAt(n: nat, start: nat, k: nat)
    requires start < n && k <= n
    ensures (start + k) % n == At(n, start, k)
  {
    var x := start + k;
    if x < n {
      SmallMod(x, n);
    } else {
      SmallMod(x - n, n);
      assert x % n == (x - n) % n by { ModPeriod(x - n, n); }
    }
  }

  lemma SmallMod(x: nat, n: nat)
    requires x < n
    ensures x % n == x
  {}

  lemma ModPeriod(x: nat, n: nat)
    requires 0 < n
    ensures (x + n) % n == x % n
  {
    var q, r := x / n, x % n;
    assert x + n == (q + 1) * n + r;
    QuotientUnique(x + n, n, q + 1, r);
  }

  lemma QuotientUnique(x: nat, n: nat, q: nat, r: nat)
    requires 0 < n && r < n && x == q * n + r
    ensures x % n == r
  {
    var q' := x / n;
    assert x % n == x - q' * n;
    assert (q' - q) * n == r - x % n;
    assert (q - q') * n == x % n - r;
    if q < q' {
      AtLeastOnce(q' - q, n);
    } else if q' < q {
      AtLeastOnce(q - q', n);
    }
  }

  lemma AtLeastOnce(d: nat, n: nat)
    requires 0 < d
    ensures d * n >= n
  {
    assert d * n == (d - 1) * n + n;
  }

  lemma DistOfAt(n: nat, a: nat, k: nat)
    requires a < n && k < n
    ensures Dist(n, a, At(n, a, k)) == k
  {}

  ghost predicate Somewhere(p: seq<bool>) {
    exists i :: 0 <= i < |p| && p[i]
  }

  /** The set slot nearest to `start` going forward, or `|p|` when no slot is set. */
  function Nearest(p: seq<bool>, start: nat): (w: nat)
    requires start < |p|
    ensures w <= |p|
    ensures w < |p| <==> Somewhere(p)
    ensures w < |p| ==> p[w]
    ensures w < |p| ==> forall j :: 0 <= j < |p| && p[j] ==> Dist(|p|, start, w) <= Dist(|p|, start, j)
  {
    var k := FirstOffset(p, start, 0);
    if k == |p| then
      NothingFound(p, start);
      |p|
    else
      DistOfAt(|p|, start, k);
      FoundNearest(p, start, k);
      At(|p|, start, k)
  }

  lemma FoundNearest(p: seq<bool>, start: nat, k: nat)
    requires start < |p| && k < |p| && forall j :: 0 <= j < k ==> !p[At(|p|, start, j)]
    ensures forall j :: 0 <= j < |p| && p[j] ==> k <= Dist(|p|, start, j)
  {
    forall j | 0 <= j < |p| && p[j]
      ensures k <= Dist(|p|, start, j)
    {
      assert p[At(|p|, start, Dist(|p|, start, j))];
    }
  }

  lemma NothingFound(p: seq<bool>, start: nat)
    requires start < |p| && forall k :: 0 <= k < |p| ==> !p[At(|p|, start, k)]
    ensures !Somewhere(p)
  {
    forall i | 0 <= i < |p|
      ensures !p[i]
    {
      assert !p[At(|p|, start, Dist(|p|, start, i))];
    }
  }

  /** The least offset from `k` on at which the scan finds a set slot, or `|p|`. */
  function FirstOffset(p: seq<bool>, start: nat, k: nat): (r: nat)
    requires start < |p| && k <= |p|
    ensures k <= r <= |p|
    ensures r < |p| ==> p[At(|p|, start, r)]
    ensures forall j :: k <= j < r ==> !p[At(|p|, start, j)]
    decreases |p| - k
  {
    if k == |p| || p[At(|p|, start, k)] then k else FirstOffset(p, start, k + 1)
  }

  /** `Nearest` is the only slot that answers its description. */
  lemma NearestUnique(p: seq<bool>, start: nat, w: nat)
    requires start < |p| && w < |p| && p[w]
    requires forall k :: 0 <= k < Dist(|p|, start, w) ==> !p[At(|p|, start, k)]
    ensures Nearest(p, start) == w
  {
    var v := Nearest(p, start);
    assert p[At(|p|, start, Dist(|p|, start, v))];
  }

  /** Moving the start just past the slot found brings every slot the scan did not pass
      that much closer: the step of all the bounded-waiting arguments. */
  lemma StartPastWinner(n: nat, start: nat, w: nat, i: nat)
    requires start < n && w < n && i < n
    requires Dist(n, start, w) < Dist(n, start, i)
    ensures Dist(n, Next(n, w), i) == Dist(n, start, i) - Dist(n, start, w) - 1
  {}
}
