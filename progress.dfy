/** The progress bar's width, derived from the current frame index and the number of frames.
    JavaScript's floating point is replaced by exact reals. */
module ProgressBar {

  /** `updateProgress`: the index as a percentage of the frame count. Every caller has at
      least one frame (the playback tick runs it only when `index < length`, skip only on a
      non-empty sequence), so the 0 / 0 case is never computed. */
  function Progress(index: nat, length: nat): (p: real)
    requires length > 0
    ensures 0.0 <= p
    ensures p < 100.0 <==> index < length
    ensures p == 100.0 <==> index == length
    ensures p == 0.0 <==> index == 0
  {
    var i, n := index as real, length as real;
    var q := i / n;
    Quotient(i, n);
    ShareOfWhole(q, n, i);
    q * 100.0
  }

  /** Dividing and multiplying back by the same positive number gives the number back. */
  lemma Quotient(i: real, n: real)
    requires n > 0.0
    ensures (i / n) * n == i
  {
  }

  /** A share q of a positive whole n that amounts to i lies below 1 exactly when i lies
      below n, is 1 exactly when i is n, and is non-negative when i is. */
  lemma ShareOfWhole(q: real, n: real, i: real)
    requires n > 0.0 && q * n == i
    ensures q < 1.0 <==> i < n
    ensures q == 1.0 <==> i == n
    ensures i >= 0.0 ==> q >= 0.0
    ensures q == 0.0 <==> i == 0.0
  {
    if q < 1.0 {
      Positive(1.0 - q, n);
    } else if q > 1.0 {
      Positive(q - 1.0, n);
    }
    if q < 0.0 {
      Positive(-q, n);
    } else if q > 0.0 {
      Positive(q, n);
    }
  }

  /** The product of two positive numbers is positive. */
  lemma Positive(a: real, b: real)
    requires a > 0.0 && b > 0.0
    ensures a * b > 0.0
  {
  }

  /** What the percentage means: it is the number x with x * length == index * 100. Kept
      apart from the function's contract, which holds only linear facts. */
  lemma ProgressTimesLength(index: nat, length: nat)
    requires length > 0
    ensures Progress(index, length) * length as real == index as real * 100.0
  {
    Quotient(index as real, length as real);
  }

  /** A later frame always shows a strictly fuller bar. */
  lemma ProgressStrictlyIncreasing(i: nat, j: nat, length: nat)
    requires length > 0 && i < j
    ensures Progress(i, length) < Progress(j, length)
  {
    var pi, pj, n := Progress(i, length), Progress(j, length), length as real;
    ProgressTimesLength(i, length);
    ProgressTimesLength(j, length);
    if pj < pi {
      Positive(pi - pj, n);
    }
  }
}
