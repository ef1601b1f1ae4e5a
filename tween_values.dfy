// Tween.cs, the arithmetic of one tween: what start, update and finish do to its
// clock (`_time`), its scale (`_t`), its active and `_finish` flags, and to the number
// of times its completion callback has run. The classes in tween.dfy are specified
// by these functions.
//
// Floats are modelled as reals. The two divisions by `_target` (a uint) and the
// float remainder produce NaN or an infinity when `_target` is 0; the model keeps
// such a value as NotFinite rather than telling the three apart.
module TweenValues {
  import opened Common

  /** Tween.PERSIST, Tween.LOOPING, Tween.ONESHOT. */
  const PERSIST: nat := 0
  const LOOPING: nat := 1
  const ONESHOT: nat := 2

  /** A float: a real number, or NaN or an infinity. */
  datatype Scalar = Finite(v: real) | NotFinite

  /** The fields of a Tween that start, update and finish change. */
  datatype TweenVal = TweenVal(active: bool, time: real, t: Scalar, finish: bool, completions: nat)

  /** The state of a freshly constructed Tween: every field at its default. */
  const Fresh: TweenVal := TweenVal(false, 0.0, Finite(0.0), false, 0)

  /** The float division `a / b` by a uint: finite exactly when `b` is not zero. */
  function Quotient(a: real, b: nat): (r: Scalar)
    ensures r.Finite? <==> b != 0
    ensures r.Finite? ==> r.v * b as real == a
  {
    if b == 0 then NotFinite else Finite(a / b as real)
  }

  /** `s / b` for a float `s` that may already be NaN. */
  function ScalarQuotient(s: Scalar, b: nat): (r: Scalar)
    ensures r.Finite? <==> s.Finite? && b != 0
  {
    match s
    case NotFinite => NotFinite
    case Finite(a) => Quotient(a, b)
  }

  /** The easer is applied only to a scale strictly between 0 and 1; NaN and the
      infinities fail both comparisons. */
  function Eased(t: Scalar, ease: Option<real -> real>): (r: Scalar)
    ensures ease.None? || !t.Finite? || t.v <= 0.0 || t.v >= 1.0 ==> r == t
    ensures ease.Some? && t.Finite? && 0.0 < t.v < 1.0 ==> r == Finite(ease.value(t.v))
  {
    if ease.Some? && t.Finite? && 0.0 < t.v < 1.0 then Finite(ease.value(t.v)) else t
  }

  /** Truncation toward zero, as the float remainder uses it. */
  function Trunc(x: real): (r: int)
    ensures x >= 0.0 ==> r as real <= x < r as real + 1.0
    ensures x < 0.0 ==> r as real - 1.0 < x <= r as real
  {
    if x >= 0.0 then x.Floor else -((-x).Floor)
  }

  /** The float remainder `a % b` (the sign of `a`; NaN when `b` is 0). */
  function Remainder(a: real, b: nat): (r: Scalar)
    ensures r.Finite? <==> b != 0
    ensures r.Finite? && a >= 0.0 ==> 0.0 <= r.v < b as real
  {
    if b == 0 then NotFinite
    else
      var q := Trunc(a / b as real);
      assert a >= 0.0 ==> 0.0 <= a - q as real * b as real < b as real by {
        if a >= 0.0 { Scaled(a, b as real, q as real); }
      }
      Finite(a - q as real * b as real)
  }

  /** What is left of `a` after taking away `q` whole `B`s, when `q` is `a / B` rounded
      down, lies in [0, B). */
  lemma Scaled(a: real, B: real, Q: real)
    requires B > 0.0 && Q <= a / B < Q + 1.0
    ensures 0.0 <= a - Q * B < B
  {
    var d := a / B - Q;
    Fraction(d, B);
    assert d * B == a - Q * B;
  }

  lemma Fraction(d: real, B: real)
    requires 0.0 <= d < 1.0 && B > 0.0
    ensures 0.0 <= d * B < B
  {
    assert (1.0 - d) * B > 0.0;
  }

  /** How far one update advances the clock: one frame in fixed-frame mode, otherwise
      the seconds elapsed since the last frame. */
  function Step(fixedFrameRate: bool, elapsed: real): (r: real)
    ensures fixedFrameRate ==> r == 1.0
    ensures !fixedFrameRate ==> r == elapsed
  {
    if fixedFrameRate then 1.0 else elapsed
  }

  /** Tween.start: the clock goes back to 0, and the tween runs unless its duration
      is 0. */
  function Started(v: TweenVal, target: nat): (r: TweenVal)
    ensures r.time == 0.0 && (r.active <==> target != 0)
    ensures r.t == v.t && r.finish == v.finish && r.completions == v.completions
  {
    v.(time := 0.0, active := target != 0)
  }

  /** Tween.update: the clock advances by `step`; the scale is the clock over the
      duration, eased when strictly between 0 and 1; once the clock reaches the
      duration the scale is 1 and the tween is marked finished. */
  function Updated(v: TweenVal, target: nat, ease: Option<real -> real>, step: real): (r: TweenVal)
    ensures r.time == v.time + step
    ensures r.finish <==> v.finish || r.time >= target as real
    ensures r.time >= target as real ==> r.t == Finite(1.0)
    ensures r.time < target as real ==> r.t == Eased(Quotient(r.time, target), ease)
    ensures r.active == v.active && r.completions == v.completions
  {
    var time := v.time + step;
    if time >= target as real then v.(time := time, t := Finite(1.0), finish := true)
    else v.(time := time, t := Eased(Quotient(time, target), ease))
  }

  /** Tween.finish, apart from a ONESHOT tween leaving its Tweener: PERSIST stops at
      the end; LOOPING folds the clock back into one period, recomputes the scale from
      it and restarts (which puts the clock back to 0); ONESHOT stops at the end; any
      other type keeps its state. Then the finish mark is cleared and the completion
      callback, when there is one, runs once. */
  function Finished(v: TweenVal, kind: nat, target: nat, ease: Option<real -> real>, hasComplete: bool): (r: TweenVal)
    ensures !r.finish
    ensures r.completions == v.completions + (if hasComplete then 1 else 0)
    ensures kind == PERSIST || kind == ONESHOT ==> r.time == target as real && !r.active && r.t == v.t
    ensures kind == LOOPING ==> r.time == 0.0 && (r.active <==> target != 0) &&
                                r.t == Eased(ScalarQuotient(Remainder(v.time, target), target), ease)
    ensures kind > ONESHOT ==> r.time == v.time && r.active == v.active && r.t == v.t
  {
    var u :=
      if kind == PERSIST || kind == ONESHOT then v.(time := target as real, active := false)
      else if kind == LOOPING then
        Started(v.(t := Eased(ScalarQuotient(Remainder(v.time, target), target), ease)), target)
      else v;
    u.(finish := false, completions := v.completions + if hasComplete then 1 else 0)
  }

  /** What Tweener.updateTweens does to one tween it reaches: nothing when inactive;
      otherwise an update, followed by finish when that left the tween finished. */
  function Tick(v: TweenVal, kind: nat, target: nat, ease: Option<real -> real>, hasComplete: bool, step: real): (r: TweenVal)
    ensures !v.active ==> r == v
    ensures v.active && !Updated(v, target, ease, step).finish ==> r == Updated(v, target, ease, step)
    ensures v.active && Updated(v, target, ease, step).finish ==>
              r == Finished(Updated(v, target, ease, step), kind, target, ease, hasComplete)
  {
    if !v.active then v
    else
      var u := Updated(v, target, ease, step);
      if u.finish then Finished(u, kind, target, ease, hasComplete) else u
  }

  /** The tween is a ONESHOT that this tick finishes, so it leaves its Tweener. */
  predicate Stops(v: TweenVal, kind: nat, target: nat, ease: Option<real -> real>, step: real)
  {
    v.active && kind == ONESHOT && Updated(v, target, ease, step).finish
  }

  /** Every tick leaves the finish mark cleared, whatever the tween's type. */
  lemma TickClearsFinish(v: TweenVal, kind: nat, target: nat, ease: Option<real -> real>, hasComplete: bool, step: real)
    requires v.active
    ensures !Tick(v, kind, target, ease, hasComplete, step).finish
  {
  }

  /** A PERSIST or ONESHOT tween that finishes is inactive afterwards, so every later
      tick leaves it as it is. */
  lemma FinishedStays(v: TweenVal, kind: nat, target: nat, ease: Option<real -> real>, hasComplete: bool, step: real, step2: real)
    requires kind == PERSIST || kind == ONESHOT
    requires v.active && Updated(v, target, ease, step).finish
    ensures var r := Tick(v, kind, target, ease, hasComplete, step);
            !r.active && r.time == target as real &&
            Tick(r, kind, target, ease, hasComplete, step2) == r
  {
  }

  /** The clock after `n` fixed-frame updates. */
  function Run(v: TweenVal, target: nat, ease: Option<real -> real>, n: nat): TweenVal
  {
    if n == 0 then v else Updated(Run(v, target, ease, n - 1), target, ease, 1.0)
  }

  /** In fixed-frame mode a started tween of duration `target` has run `n` frames after
      `n` updates, is marked finished exactly from the `target`-th update on (the
      first, for duration 0), and
      until then, with no easer, has scale `n / target`; from then on its scale is 1. */
  lemma {:induction false} FixedFrameRun(v: TweenVal, target: nat, ease: Option<real -> real>, n: nat)
    requires v.time == 0.0 && !v.finish
    ensures var r := Run(v, target, ease, n);
            r.time == n as real && (r.finish <==> n > 0 && n >= target) &&
            (0 < n && n >= target ==> r.t == Finite(1.0)) &&
            (0 < n < target && ease.None? ==> r.t == Finite(n as real / target as real)) &&
            r.active == v.active && r.completions == v.completions
  {
    if n > 0 {
      FixedFrameRun(v, target, ease, n - 1);
      var r := Run(v, target, ease, n);
      assert r.time == (n - 1) as real + 1.0 == n as real;
      assert r.finish <==> n - 1 >= target || n as real >= target as real;
    }
  }

  /** Setting the percentage and reading it back gives the value set, when the
      duration is not 0 (with duration 0 the read divides by zero). */
  lemma PercentRoundTrip(target: nat, p: real)
    ensures Quotient(target as real * p, target) == if target == 0 then NotFinite else Finite(p)
  {
  }

  /** A LOOPING tween with no easer that finishes with a clock at or past 0 restarts
      with a scale in [0, 1): the position reached inside the new period. */
  lemma LoopingScale(v: TweenVal, target: nat, hasComplete: bool)
    requires target != 0 && v.time >= 0.0
    ensures var r := Finished(v, LOOPING, target, None, hasComplete);
            r.t.Finite? && 0.0 <= r.t.v < 1.0 && r.active && r.time == 0.0
  {
    var m := Remainder(v.time, target);
    assert 0.0 <= m.v < target as real;
    assert m.v / target as real < 1.0;
  }
}
