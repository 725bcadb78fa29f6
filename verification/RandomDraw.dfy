/** Drawing values that were not drawn before, by retrying a random source. */
module RandomDraw {

  /** The source yields `v` (mod `bound`) at position `from` or later. */
  ghost predicate Hits(draw: nat -> nat, bound: nat, v: nat, from: nat)
    requires bound > 0
  {
    exists k: nat :: from <= k && draw(k) % bound == v
  }

  /** A random source: an endless stream in which no value ever stops appearing. */
  ghost predicate Fair(draw: nat -> nat, bound: nat)
    requires bound > 0
  {
    forall v: nat, from: nat :: v < bound ==> Hits(draw, bound, v, from)
  }

  ghost function Below(n: nat): (s: set<nat>)
    ensures |s| == n && forall v: nat :: v in s <==> v < n
  {
    if n == 0 then {} else Below(n - 1) + {n - 1}
  }

  lemma SubsetSize<T>(a: set<T>, b: set<T>)
    requires a <= b
    ensures |a| <= |b| && (|a| == |b| ==> a == b)
  {
    assert b == a + (b - a);
  }

  /** Pigeonhole: fewer than `bound` values leave one of the first `bound` free. */
  lemma FreeValue(taken: set<nat>, bound: nat) returns (v: nat)
    requires |taken| < bound
    ensures v < bound && v !in taken
  {
    if Below(bound) <= taken {
      SubsetSize(Below(bound), taken);
    }
    v :| v in Below(bound) && v !in taken;
  }

  /** Retry until the draw is not among `taken`. */
  method DrawFresh(draw: nat -> nat, start: nat, taken: set<nat>, bound: nat) returns (id: nat, next: nat)
    requires |taken| < bound && Fair(draw, bound)
    ensures id < bound && id !in taken
    ensures start < next && id == draw(next - 1) % bound
    ensures forall k: nat :: start <= k < next - 1 ==> draw(k) % bound in taken
  {
    ghost var free := FreeValue(taken, bound);
    assert Hits(draw, bound, free, start);
    ghost var hit: nat :| start <= hit && draw(hit) % bound == free;
    next := start;
    while true
      invariant start <= next <= hit
      invariant forall k: nat :: start <= k < next ==> draw(k) % bound in taken
      decreases hit - next
    {
      id := draw(next) % bound;
      next := next + 1;
      if id !in taken {
        return;
      }
    }
  }
}
