/**
 * Order helpers of the utility header: three-argument minimum, maximum and
 * median, and clamp, each a single expression over std::min / std::max.
 *
 * std::min(a, b) yields `a` unless `b < a`; std::max(a, b) yields `a` unless
 * `a < b`. The header's templates are used at two types in the code: at
 * unsigned vertex indices (min/median/max, when building edge keys) and at
 * float angles (clamp, for the camera pitch). The model instantiates the
 * first three at `int` and clamp at `real`.
 */
module MathUtil {

  /** util::min(A, B, C) = std::min(A, std::min(B, C)). */
  function Min3(a: int, b: int, c: int): (r: int)
    ensures r <= a && r <= b && r <= c
    ensures r == a || r == b || r == c
  {
    var bc := if c < b then c else b;
    if bc < a then bc else a
  }

  /** util::max(A, B, C) = std::max(A, std::max(B, C)). */
  function Max3(a: int, b: int, c: int): (r: int)
    ensures r >= a && r >= b && r >= c
    ensures r == a || r == b || r == c
  {
    var bc := if b < c then c else b;
    if a < bc then bc else a
  }

  /** util::median(A, B, C) = std::max(std::min(A, B), std::min(std::max(A, B), C)). */
  function Median3(a: int, b: int, c: int): (r: int)
    ensures r == a || r == b || r == c
    ensures Min3(a, b, c) <= r <= Max3(a, b, c)
  {
    var lo := if b < a then b else a;
    var hi := if a < b then b else a;
    var m := if c < hi then c else hi;
    if lo < m then m else lo
  }

  /** Minimum, median and maximum together are the three arguments, counted with multiplicity. */
  lemma SortedTripleIsPermutation(a: int, b: int, c: int)
    ensures multiset{Min3(a, b, c), Median3(a, b, c), Max3(a, b, c)} == multiset{a, b, c}
  {
  }

  /** Each of the three helpers depends only on the multiset of its arguments. */
  lemma OrderHelpersIgnoreArgumentOrder(a: int, b: int, c: int)
    ensures Min3(a, b, c) == Min3(b, a, c) == Min3(a, c, b) == Min3(b, c, a) == Min3(c, a, b) == Min3(c, b, a)
    ensures Max3(a, b, c) == Max3(b, a, c) == Max3(a, c, b) == Max3(b, c, a) == Max3(c, a, b) == Max3(c, b, a)
    ensures Median3(a, b, c) == Median3(b, a, c) == Median3(a, c, b)
         == Median3(b, c, a) == Median3(c, a, b) == Median3(c, b, a)
  {
  }

  /**
   * util::clamp(value, min, max) = std::max(min, std::min(max, value)).
   * With an empty range (lo > hi) the outer std::max always yields lo.
   */
  function Clamp(v: real, lo: real, hi: real): (r: real)
    ensures lo <= hi ==> lo <= r <= hi
    ensures lo <= v <= hi ==> r == v
    ensures lo > hi ==> r == lo
    ensures v <= lo ==> r == lo
    ensures lo <= hi <= v ==> r == hi
    ensures r == v || r == lo || r == hi
  {
    var m := if v < hi then v else hi;
    if lo < m then m else lo
  }

  /** Clamping a clamped value changes nothing, whether or not the range is empty. */
  lemma ClampIdempotent(v: real, lo: real, hi: real)
    ensures Clamp(Clamp(v, lo, hi), lo, hi) == Clamp(v, lo, hi)
  {
  }
}
