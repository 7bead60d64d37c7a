/** The "best of the candidates" fold shared by the negamax and quiescence
    values: each candidate move yields an optional score (None for a move
    that is skipped as illegal) and the fold keeps the largest. */
module Folds {
  import opened Types

  /** The larger of two optional values; None means "no candidate yet". */
  function Better(a: Option<int>, b: Option<int>): Option<int> {
    if a.None? then b
    else if b.None? then a
    else Some(if a.value >= b.value then a.value else b.value)
  }

  /** x raised to best, if there is a best. */
  function Raise(x: int, best: Option<int>): int {
    if best.Some? && best.value > x then best.value else x
  }

  /** v limited to the window [lo, hi]. */
  function Clamp(v: int, lo: int, hi: int): int {
    if v < lo then lo else if v > hi then hi else v
  }

  /** The best value f gives to the elements of ms, scanning left to right. */
  function BestBy<T>(ms: seq<T>, f: T -> Option<int>): Option<int>
    decreases |ms|
  {
    if |ms| == 0 then None
    else
      Better(BestBy(ms[..|ms| - 1], f), f(ms[|ms| - 1]))
  }

  /** One more element of the scan. */
  lemma BestByStep<T>(ms: seq<T>, f: T -> Option<int>, i: int)
    requires 0 <= i < |ms|
    ensures BestBy(ms[..i + 1], f) == Better(BestBy(ms[..i], f), f(ms[i]))
  {
    assert ms[..i + 1][..i] == ms[..i];
  }

  /** Every value the fold sees is at most its result. */
  lemma {:induction false} BestByUpper<T>(ms: seq<T>, f: T -> Option<int>, m: T)
    requires m in ms && f(m).Some?
    ensures BestBy(ms, f).Some? && f(m).value <= BestBy(ms, f).value
    decreases |ms|
  {
    var i :| 0 <= i < |ms| && ms[i] == m;
    if i < |ms| - 1 {
      assert ms[..|ms| - 1][i] == m;
      BestByUpper(ms[..|ms| - 1], f, m);
    }
  }

  /** The result, when there is one, is the value of some element. */
  lemma {:induction false} BestByWitness<T>(ms: seq<T>, f: T -> Option<int>) returns (m: T)
    requires BestBy(ms, f).Some?
    ensures m in ms && f(m) == BestBy(ms, f)
    decreases |ms|
  {
    var init := ms[..|ms| - 1];
    var last := ms[|ms| - 1];
    var before := BestBy(init, f);
    if before.Some? && (f(last).None? || before.value >= f(last).value) {
      m := BestByWitness(init, f);
    } else {
      m := last;
    }
  }

  /** With no result, f gives None to every element. */
  lemma BestByNone<T>(ms: seq<T>, f: T -> Option<int>, m: T)
    requires BestBy(ms, f).None? && m in ms
    ensures f(m).None?
  {
    if f(m).Some? {
      BestByUpper(ms, f, m);
    }
  }

  /** The fold is the same over any reordering of the elements. */
  lemma BestBySame<T>(a: seq<T>, b: seq<T>, f: T -> Option<int>)
    requires multiset(a) == multiset(b)
    ensures BestBy(a, f) == BestBy(b, f)
  {
    var p, q := BestBy(a, f), BestBy(b, f);
    if p.Some? {
      var m := BestByWitness(a, f);
      assert m in multiset(a);
      BestByUpper(b, f, m);
    }
    if q.Some? {
      var m := BestByWitness(b, f);
      assert m in multiset(b);
      BestByUpper(a, f, m);
    }
  }

  /** The elements of ms that satisfy p, in order. */
  function Filter<T>(ms: seq<T>, p: T -> bool): seq<T>
    decreases |ms|
  {
    if |ms| == 0 then []
    else Filter(ms[..|ms| - 1], p) + (if p(ms[|ms| - 1]) then [ms[|ms| - 1]] else [])
  }

  /** One more element of the filter. */
  lemma FilterStep<T>(ms: seq<T>, p: T -> bool, i: int)
    requires 0 <= i < |ms|
    ensures Filter(ms[..i + 1], p) == Filter(ms[..i], p) + (if p(ms[i]) then [ms[i]] else [])
  {
    assert ms[..i + 1][..i] == ms[..i];
  }

  /** Nothing passes when no element satisfies p. */
  lemma {:induction false} FilterNone<T>(ms: seq<T>, p: T -> bool)
    requires forall k | 0 <= k < |ms| :: !p(ms[k])
    ensures Filter(ms, p) == []
    decreases |ms|
  {
    if |ms| > 0 {
      FilterNone(ms[..|ms| - 1], p);
    }
  }

  lemma {:induction false} FilterMember<T>(ms: seq<T>, p: T -> bool, x: T)
    ensures x in Filter(ms, p) <==> x in ms && p(x)
    decreases |ms|
  {
    if |ms| > 0 {
      var init := ms[..|ms| - 1];
      FilterMember(init, p, x);
      assert x in ms <==> x in init || x == ms[|ms| - 1] by {
        assert ms == init + [ms[|ms| - 1]];
      }
    }
  }

  /** Dropping elements that f maps to None does not change the fold. */
  lemma {:induction false} BestByFilter<T>(ms: seq<T>, p: T -> bool, f: T -> Option<int>)
    requires forall x | x in ms && !p(x) :: f(x).None?
    ensures BestBy(Filter(ms, p), f) == BestBy(ms, f)
    decreases |ms|
  {
    if |ms| > 0 {
      var init := ms[..|ms| - 1];
      var last := ms[|ms| - 1];
      assert forall x | x in init :: x in ms;
      BestByFilter(init, p, f);
      if p(last) {
        var fs := Filter(init, p) + [last];
        assert fs[..|fs| - 1] == Filter(init, p);
      } else {
        assert Filter(ms, p) == Filter(init, p);
      }
    }
  }

  /** Negating a score mirrors the window. */
  lemma ClampNegate(v: int, lo: int, hi: int)
    requires lo < hi
    ensures Clamp(-v, lo, hi) == -Clamp(v, -hi, -lo)
  {
  }

  /** A negated result clamped in the mirrored window clamps like the
      negated value itself. */
  lemma ClampNegClamp(v: int, w: int, lo: int, hi: int)
    requires lo < hi && Clamp(w, -hi, -lo) == Clamp(v, -hi, -lo)
    ensures Clamp(-w, lo, hi) == Clamp(-v, lo, hi)
  {
    ClampNegate(w, lo, hi);
    ClampNegate(v, lo, hi);
  }

  /** One step of the root loop, where the reported score is exact when it
      raises alpha: alpha then follows the fold exactly. */
  lemma RaiseExact(lo: int, alpha: int, best: Option<int>, score: int, v: int)
    requires alpha == Raise(lo, best) && lo < v
    requires (score > alpha <==> v > alpha) && (score > alpha ==> score == v)
    ensures (if score > alpha then score else alpha) == Raise(lo, Better(best, Some(v)))
    ensures best.None? ==> score > alpha
  {
  }

  /** One step of a fail-hard loop: a score below beta raises the running
      alpha exactly as the value it stands for raises the fold. */
  lemma RaiseStep(alpha: int, a: int, beta: int, best: Option<int>, score: int, v: int)
    requires alpha < beta && a == Raise(alpha, best) && (best.None? || best.value < beta)
    requires Clamp(score, a, beta) == Clamp(v, a, beta) && score < beta
    ensures v < beta
    ensures (if score > a then score else a) == Raise(alpha, Better(best, Some(v)))
  {
  }
}
