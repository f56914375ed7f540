/**
 * The playback buffer `m_qDesired` as a value: what one call of
 * `advanceReferenceSignals` does to it (remove the front frame, then append
 * a copy of the frame that is now last), and what repeated calls do.
 * Repeated advancing holds the final frame forever; it never restarts.
 */
module PlaybackBuffer {

  /** `n` copies of `x`. */
  function Repeat<T>(x: T, n: nat): (r: seq<T>)
    ensures |r| == n
    ensures forall i :: 0 <= i < n ==> r[i] == x
  {
    if n == 0 then [] else [x] + Repeat(x, n - 1)
  }

  function Min(a: nat, b: nat): (m: nat) {
    if a <= b then a else b
  }

  /**
   * The buffer after one advance of a buffer of at least two frames:
   * `pop_front` followed by `push_back(back())`.
   */
  function Advanced<T>(q: seq<T>): (r: seq<T>)
    requires |q| >= 2
    ensures |r| == |q|
    ensures r[|r| - 1] == q[|q| - 1]
    ensures forall i :: 0 <= i < |q| - 1 ==> r[i] == q[i + 1]
  {
    var popped := q[1..];
    popped + [popped[|popped| - 1]]
  }

  /** The buffer after `k` advances. */
  function AdvancedTimes<T>(q: seq<T>, k: nat): (r: seq<T>)
    requires |q| >= 2
    ensures |r| == |q|
    decreases k
  {
    if k == 0 then q else AdvancedTimes(Advanced(q), k - 1)
  }

  /**
   * After `k` advances of an `n`-frame buffer the original frames from
   * index `min(k, n-1)` on remain, padded with copies of the last frame.
   */
  lemma {:induction false} AdvancedTimesShape<T>(q: seq<T>, k: nat)
    requires |q| >= 2
    ensures AdvancedTimes(q, k) == q[Min(k, |q| - 1)..] + Repeat(q[|q| - 1], Min(k, |q| - 1))
  {
    var n := |q|;
    var last := q[n - 1];
    if k == 0 {
      assert q[0..] == q;
    } else {
      AdvancedTimesShape(q, k - 1);
      var m := Min(k - 1, n - 1);
      var p := AdvancedTimes(q, k - 1);
      assert p == q[m..] + Repeat(last, m);
      AdvancedTimesLast(q, k - 1);
      if k - 1 < n - 1 {
        assert p[1..] == q[m + 1..] + Repeat(last, m);
        assert p[n - 1] == last;
        assert Repeat(last, m) + [last] == Repeat(last, m + 1);
        assert Advanced(p) == q[m + 1..] + Repeat(last, m + 1);
      } else {
        assert p == Repeat(last, n);
        assert Advanced(p) == Repeat(last, n);
        assert q[n - 1..] + Repeat(last, n - 1) == Repeat(last, n);
      }
    }
  }

  /** Advancing `k` times and then once more is advancing `k + 1` times. */
  lemma {:induction false} AdvancedTimesLast<T>(q: seq<T>, k: nat)
    requires |q| >= 2
    ensures AdvancedTimes(q, k + 1) == Advanced(AdvancedTimes(q, k))
    decreases k
  {
    if k > 0 {
      AdvancedTimesLast(Advanced(q), k - 1);
    }
  }

  /**
   * The current frame after `k` advances is original frame `min(k, n-1)`
   * (an index cursor clamped at the last frame), and the last frame never
   * changes.
   */
  lemma FrontAfterAdvances<T>(q: seq<T>, k: nat)
    requires |q| >= 2
    ensures AdvancedTimes(q, k)[0] == q[Min(k, |q| - 1)]
    ensures AdvancedTimes(q, k)[|q| - 1] == q[|q| - 1]
  {
    AdvancedTimesShape(q, k);
  }

  /**
   * Once the original frames are exhausted (`k >= n-1` advances) the
   * buffer holds only the final frame, and every further advance leaves it
   * as it is.
   */
  lemma HoldsLastFrame<T>(q: seq<T>, k: nat)
    requires |q| >= 2 && k >= |q| - 1
    ensures AdvancedTimes(q, k) == Repeat(q[|q| - 1], |q|)
    ensures Advanced(AdvancedTimes(q, k)) == AdvancedTimes(q, k)
  {
    AdvancedTimesShape(q, k);
    assert q[|q| - 1..] == [q[|q| - 1]];
  }

  /**
   * Three frames and six advances: the frame current before each call is
   * frame 0, 1, 2, 2, 2, 2.
   */
  lemma ThreeFrameScenario<T>(f0: T, f1: T, f2: T)
    ensures var q := [f0, f1, f2];
            AdvancedTimes(q, 0)[0] == f0 && AdvancedTimes(q, 1)[0] == f1
            && AdvancedTimes(q, 2)[0] == f2 && AdvancedTimes(q, 3)[0] == f2
            && AdvancedTimes(q, 4)[0] == f2 && AdvancedTimes(q, 5)[0] == f2
  {
  }
}
