/**
 * The line-diff ratio between two submissions. The changed-line count comes
 * from `difflib.Differ`, whose algorithm is not part of this model: it is a
 * parameter `differ`, giving for two normalised codes the number of inserted
 * or removed non-blank lines. What is modelled is the ratio itself.
 */
module DiffRatio {
  import opened Lines

  /** The number of `+ ` / `- ` non-blank lines Differ reports for two codes. */
  type Differ = (string, string) -> nat

  /**
   * `get_diff(sub1, sub2)`: changed lines over the non-blank lines of the
   * FIRST argument. It divides by zero when `sub1` has no non-blank line, so
   * callers must rule that out.
   */
  function GetDiff(sub1: string, sub2: string, differ: Differ): (ratio: real)
    requires LineCount(sub1) > 0
    ensures ratio >= 0.0
    ensures ratio * (LineCount(sub1) as real) == differ(sub1, sub2) as real
  {
    (differ(sub1, sub2) as real) / (LineCount(sub1) as real)
  }

  /** Threshold for a `^` in the score trail. */
  const CaretThreshold: real := 0.5

  /** Threshold for a drastic change (LOC trail and drastic-change trail). */
  const DrasticThreshold: real := 0.7

  /**
   * A drastic change between two consecutive normalised codes: the previous
   * code is non-empty and the diff ratio against it exceeds 0.7, stated on
   * the counts (`DrasticByCounts` shows it is the same as comparing the ratio).
   */
  predicate DrasticBetween(prevCode: string, code: string, differ: Differ) {
    prevCode != "" && differ(prevCode, code) * 10 > 7 * LineCount(prevCode)
  }

  /** Comparing the ratio with 0.7 is the count comparison of `DrasticBetween`. */
  lemma DrasticByCounts(prevCode: string, code: string, differ: Differ)
    requires LineCount(prevCode) > 0
    ensures GetDiff(prevCode, code, differ) > DrasticThreshold <==> differ(prevCode, code) * 10 > 7 * LineCount(prevCode)
  {
    ExceedsByCounts(prevCode, code, differ, 7, 10);
  }

  /**
   * A `^` between two consecutive normalised codes: the previous code is
   * non-empty and the diff ratio against it exceeds 0.5, stated on the
   * counts (`CaretByCounts` shows it is the same as comparing the ratio).
   */
  predicate CaretBetween(prevCode: string, code: string, differ: Differ) {
    prevCode != "" && differ(prevCode, code) * 2 > LineCount(prevCode)
  }

  /** Comparing the ratio with 0.5 is the count comparison of `CaretBetween`. */
  lemma CaretByCounts(prevCode: string, code: string, differ: Differ)
    requires LineCount(prevCode) > 0
    ensures GetDiff(prevCode, code, differ) > CaretThreshold <==> differ(prevCode, code) * 2 > LineCount(prevCode)
  {
    ExceedsByCounts(prevCode, code, differ, 1, 2);
  }

  /** A drastic change always earns a `^` as well. */
  lemma DrasticIsCaret(prevCode: string, code: string, differ: Differ)
    requires DrasticBetween(prevCode, code, differ)
    ensures CaretBetween(prevCode, code, differ)
  {
  }

  /**
   * The ratio exceeds p/q exactly when changes * q exceeds p times the
   * non-blank line count of the first code: the comparison needs no division.
   */
  lemma ExceedsByCounts(sub1: string, sub2: string, differ: Differ, p: nat, q: nat)
    requires LineCount(sub1) > 0 && q > 0
    ensures GetDiff(sub1, sub2, differ) > (p as real) / (q as real)
        <==> differ(sub1, sub2) * q > p * LineCount(sub1)
  {
    var d := differ(sub1, sub2);
    var n := LineCount(sub1);
    RatioOrder(GetDiff(sub1, sub2, differ), d as real, n as real, p as real, q as real);
    assert (d * q) as real == (d as real) * (q as real);
    assert (p * n) as real == (p as real) * (n as real);
  }

  /** For r = d / n with n, q positive: r > p / q exactly when d q > p n. */
  lemma RatioOrder(r: real, d: real, n: real, p: real, q: real)
    requires n > 0.0 && q > 0.0 && r * n == d
    ensures r > p / q <==> d * q > p * n
  {
    var bound := p / q;
    ScaleKeepsOrder(r, bound, q);
    assert bound * q == p;
    ScaleKeepsOrder(r * q, p, n);
    assert r * q * n == d * q;
  }

  /** Multiplying both sides by a positive factor keeps a strict order. */
  lemma ScaleKeepsOrder(a: real, b: real, k: real)
    requires k > 0.0
    ensures a > b <==> a * k > b * k
  {
    assert a * k - b * k == (a - b) * k;
    if a > b {
      assert (a - b) * k > 0.0;
    }
    if a <= b {
      assert (a - b) * k <= 0.0;
    }
  }
}
