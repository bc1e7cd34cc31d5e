/** Counting the entries of a whole admission history that fall in an interval. */
module Counting {

  /** The entries of `h` in the half-open interval [lo, hi). */
  function Count(h: seq<int>, lo: int, hi: int): (n: nat)
    ensures n <= |h|
  {
    if h == [] then 0
    else
      var last := |h| - 1;
      Count(h[..last], lo, hi) + (if lo <= h[last] < hi then 1 else 0)
  }

  ghost predicate UpTo(h: seq<int>, t: int) {
    forall i :: 0 <= i < |h| ==> h[i] <= t
  }

  lemma CountSnoc(h: seq<int>, t: int, lo: int, hi: int)
    ensures Count(h + [t], lo, hi) == Count(h, lo, hi) + (if lo <= t < hi then 1 else 0)
  {
    assert (h + [t])[..|h|] == h;
  }

  lemma {:induction false} CountSplit(h: seq<int>, lo: int, mid: int, hi: int)
    requires lo <= mid <= hi
    ensures Count(h, lo, hi) == Count(h, lo, mid) + Count(h, mid, hi)
  {
    if h != [] {
      CountSplit(h[..|h| - 1], lo, mid, hi);
    }
  }

  lemma {:induction false} CountMono(h: seq<int>, lo: int, hi: int, lo': int, hi': int)
    requires lo' <= lo && hi <= hi'
    ensures Count(h, lo, hi) <= Count(h, lo', hi')
  {
    if h != [] {
      CountMono(h[..|h| - 1], lo, hi, lo', hi');
    }
  }

  lemma {:induction false} CountNone(h: seq<int>, t: int, lo: int, hi: int)
    requires UpTo(h, t) && (t < lo || hi <= lo)
    ensures Count(h, lo, hi) == 0
  {
    if h != [] {
      CountNone(h[..|h| - 1], t, lo, hi);
    }
  }

  /** Past the newest entry the upper end of an interval does not matter. */
  lemma {:induction false} CountBeyond(h: seq<int>, t: int, lo: int, hi: int, hi': int)
    requires UpTo(h, t) && t < hi && t < hi'
    ensures Count(h, lo, hi) == Count(h, lo, hi')
  {
    if h != [] {
      CountBeyond(h[..|h| - 1], t, lo, hi, hi');
    }
  }
}
