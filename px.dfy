// The static helpers of PX that the world and entity code relies on, and the
// small numeric utilities whose edge cases the engine's callers depend on.
module PX {
  import opened Common

  const UintModulus: int := 0x1_0000_0000

  /** A C# `uint`. */
  type Uint = x: int | 0 <= x < UintModulus

  // ---------------------------------------------------------------- sign

  function Abs(v: int): nat { if v < 0 then -v else v }

  /** PX.sign: -1, 0 or 1, so that sign times value is the magnitude. */
  function Sign(value: int): (r: int)
    ensures -1 <= r <= 1
    ensures r * value == Abs(value)
    ensures r == 0 <==> value == 0
  {
    if value < 0 then -1 else if value > 0 then 1 else 0
  }

  // ---------------------------------------------------------------- approach / clamp

  /** PX.approach: moves `value` towards `target` by at most `amount`, never past it. */
  function Approach(value: real, target: real, amount: real): (r: real)
    ensures amount >= 0.0 && value <= target ==> value <= r <= target
    ensures amount >= 0.0 && target <= value ==> target <= r <= value
    ensures amount >= 0.0 && value <= target <= value + amount ==> r == target
    ensures amount >= 0.0 && value - amount <= target <= value ==> r == target
    ensures amount >= 0.0 && value + amount < target ==> r == value + amount
    ensures amount >= 0.0 && target < value - amount ==> r == value - amount
  {
    if value < target then (if target < value + amount then target else value + amount)
    else (if target > value - amount then target else value - amount)
  }

  /** PX.clamp: keeps `value` inside the range spanned by `min` and `max`, in either order. */
  function Clamp(value: real, min: real, max: real): (r: real)
    ensures var lo := if max > min then min else max;
            var hi := if max > min then max else min;
            lo <= r <= hi &&
            (lo <= value <= hi ==> r == value) &&
            (value < lo ==> r == lo) &&
            (value > hi ==> r == hi)
  {
    if max > min then
      var v := if value < max then value else max;
      if v > min then v else min
    else
      var v := if value < min then value else min;
      if v > max then v else max
  }

  lemma ClampIdempotent(value: real, min: real, max: real)
    ensures Clamp(Clamp(value, min, max), min, max) == Clamp(value, min, max)
  {
  }

  // ---------------------------------------------------------------- zeroPad

  function DigitChar(d: nat): (c: char)
    requires d < 10
    ensures '0' <= c <= '9' && c as int - '0' as int == d
  {
    (d + '0' as int) as char
  }

  /** The decimal digits of `n`, most significant first, without leading zeroes. */
  function Digits(n: nat): (r: string)
    ensures 1 <= |r|
    ensures forall i :: 0 <= i < |r| ==> '0' <= r[i] <= '9'
    ensures n > 0 ==> r[0] != '0'
  {
    if n < 10 then [DigitChar(n)] else Digits(n / 10) + [DigitChar(n % 10)]
  }

  /** The value of a string of decimal digits. */
  function DigitsValue(s: string): nat
    requires forall i :: 0 <= i < |s| ==> '0' <= s[i] <= '9'
  {
    if s == [] then 0 else 10 * DigitsValue(s[..|s| - 1]) + (s[|s| - 1] as int - '0' as int)
  }

  /** int.ToString(): an optional minus sign followed by the digits. */
  function IntToString(n: int): (r: string)
    ensures |r| >= 1
  {
    if n < 0 then "-" + Digits(-n) else Digits(n)
  }

  /** Reading the digits back gives the number: Digits is a faithful rendering. */
  lemma {:induction false} DigitsRoundTrip(n: nat)
    ensures DigitsValue(Digits(n)) == n
  {
    if n >= 10 {
      DigitsRoundTrip(n / 10);
      var s := Digits(n);
      assert s[..|s| - 1] == Digits(n / 10);
    }
  }

  /** The string of `k` zero characters (none when `k` is not positive). */
  function Zeros(k: int): (r: string)
    ensures |r| == (if k > 0 then k else 0)
    ensures forall i :: 0 <= i < |r| ==> r[i] == '0'
  {
    if k <= 0 then "" else "0" + Zeros(k - 1)
  }

  /** PX.zeroPad: prefixes the number's text with zeroes until it is at least `width` long.
      A negative number gets its zeroes in front of the minus sign, as in the source. */
  method ZeroPad(number: int, width: int) returns (s: string)
    ensures var text := IntToString(number);
            |s| == (if width > |text| then width else |text|) &&
            s[|s| - |text|..] == text &&
            (forall i :: 0 <= i < |s| - |text| ==> s[i] == '0')
  {
    s := IntToString(number);
    ghost var text := s;
    while |s| < width
      invariant |text| <= |s| && (|s| > |text| ==> |s| <= width)
      invariant s == Zeros(|s| - |text|) + text
      decreases width - |s|
    {
      s := "0" + s;
    }
  }

  // ---------------------------------------------------------------- colors

  /** PX.getColorRGB on 32-bit unsigned values. */
  function GetColorRGB(r: bv32, g: bv32, b: bv32): bv32
  {
    (r << 16) | (g << 8) | b
  }

  function GetRed(color: bv32): (r: bv32)
    ensures r <= 0xFF
  {
    (color >> 16) & 0xFF
  }

  function GetGreen(color: bv32): (r: bv32)
    ensures r <= 0xFF
  {
    (color >> 8) & 0xFF
  }

  function GetBlue(color: bv32): (r: bv32)
    ensures r <= 0xFF
  {
    color & 0xFF
  }

  /** Components in 0..255 survive the packing into one color. */
  lemma ColorRoundTrip(r: bv32, g: bv32, b: bv32)
    requires r <= 0xFF && g <= 0xFF && b <= 0xFF
    ensures GetRed(GetColorRGB(r, g, b)) == r
    ensures GetGreen(GetColorRGB(r, g, b)) == g
    ensures GetBlue(GetColorRGB(r, g, b)) == b
  {
  }

  // ---------------------------------------------------------------- next / prev / swap

  /** Cyclic successor and predecessor of an index below `n`. */
  lemma Wrap(i: int, n: int)
    requires 0 <= i < n
    ensures (i + 1) % n == (if i + 1 < n then i + 1 else 0)
    ensures ((i - 1) + n) % n == (if i > 0 then i - 1 else n - 1)
  {
    if i + 1 == n { assert (i + 1) % n == 0; }
    if i == 0 { assert ((i - 1) + n) % n == n - 1; }
  }

  /** PX.next with looping: the option after `current`, wrapping to the first. */
  function Next<T(==)>(current: T, options: seq<T>): (r: T)
    requires current in options
    ensures r in options
    ensures var i := IndexOf(options, current);
            r == (if i + 1 < |options| then options[i + 1] else options[0])
  {
    var i, n := IndexOf(options, current), |options|;
    Wrap(i, n);
    options[(i + 1) % n]
  }

  /** PX.prev: the option before `current`; with `loop` it wraps to the last,
      without it it stays on the first. */
  function Prev<T(==)>(current: T, options: seq<T>, loop: bool): (r: T)
    requires current in options
    ensures r in options
    ensures var i := IndexOf(options, current);
            r == (if i > 0 then options[i - 1] else if loop then options[|options| - 1] else options[0])
  {
    var i, n := IndexOf(options, current), |options|;
    if loop then
      Wrap(i, n);
      options[((i - 1) + n) % n]
    else options[if i - 1 > 0 then i - 1 else 0]
  }

  /** Stepping forward then back returns to the start when the options are distinct. */
  lemma PrevOfNext<T>(current: T, options: seq<T>)
    requires current in options && Distinct(options)
    ensures Prev(Next(current, options), options, true) == current
  {
    var i := IndexOf(options, current);
    if i + 1 < |options| {
      DistinctIndexOf(options, i + 1);
    } else {
      DistinctIndexOf(options, 0);
    }
  }

  /** PX.next without looping, as written: `Math.Max(index + 1, Count - 1)` selects the
      last option, and from the last option it indexes one past the end and throws. */
  function NextNoLoopAsWritten<T(==)>(current: T, options: seq<T>): (r: Result<T>)
    requires current in options
    ensures IndexOf(options, current) < |options| - 1 ==> r == Ok(options[|options| - 1])
    ensures IndexOf(options, current) == |options| - 1 ==> r == Err(IndexOutOfRange)
  {
    var i := IndexOf(options, current);
    var k := if i + 1 > |options| - 1 then i + 1 else |options| - 1;
    if k < |options| then Ok(options[k]) else Err(IndexOutOfRange)
  }

  /** From the first of three distinct options the as-written step jumps to the third. */
  lemma NextNoLoopSkips()
    ensures NextNoLoopAsWritten(1, [1, 2, 3]) == Ok(3)
  {
  }

  /** PX.next without looping as documented: the following option, staying on the last. */
  function NextNoLoop<T(==)>(current: T, options: seq<T>): (r: T)
    requires current in options
    ensures var i := IndexOf(options, current);
            r == (if i + 1 < |options| then options[i + 1] else options[|options| - 1])
  {
    var i := IndexOf(options, current);
    options[if i + 1 < |options| - 1 then i + 1 else |options| - 1]
  }

  /** Without looping, stepping forward then back returns to any option but the last. */
  lemma PrevOfNextNoLoop<T>(current: T, options: seq<T>)
    requires current in options && Distinct(options)
    requires IndexOf(options, current) < |options| - 1
    ensures Prev(NextNoLoop(current, options), options, false) == current
  {
    DistinctIndexOf(options, IndexOf(options, current) + 1);
  }

  /** PX.swap: `b` when `current` is `a`, otherwise `a`. */
  function Swap<T(==)>(current: T, a: T, b: T): (r: T)
    ensures current == a ==> r == b
    ensures current != a ==> r == a
  {
    if current == a then b else a
  }

  lemma SwapTwice<T>(a: T, b: T)
    requires a != b
    ensures Swap(Swap(a, a, b), a, b) == a
    ensures Swap(Swap(b, a, b), a, b) == b
  {
  }

  // ---------------------------------------------------------------- frames

  /** The ascending frame run from `start` while not past `stop`. */
  function Up(start: int, stop: int, step: nat): (r: seq<int>)
    requires step > 0
    decreases stop - start + step
  {
    if start > stop then [] else [start] + Up(start + step, stop, step)
  }

  /** The value the ascending loop reaches when it stops: the first one past `stop`. */
  function UpEnd(start: int, stop: int, step: nat): (r: int)
    requires step > 0
    ensures r > stop && r >= start
    decreases stop - start + step
  {
    if start > stop then start else UpEnd(start + step, stop, step)
  }

  /** The descending frame run from `start` while not below `stop`. */
  function Down(start: int, stop: int, step: nat): (r: seq<int>)
    requires step > 0
    decreases start - stop + step
  {
    if start < stop then [] else [start] + Down(start - step, stop, step)
  }

  /** The value the descending loop reaches when it stops: the first one below `stop`. */
  function DownEnd(start: int, stop: int, step: nat): (r: int)
    requires step > 0
    ensures r < stop && r <= start
    decreases start - stop + step
  {
    if start < stop then start else DownEnd(start - step, stop, step)
  }

  /** The ascending run starts at `start`, climbs by `step` and stays within [start, stop]. */
  lemma {:induction false} UpShape(start: int, stop: int, step: nat)
    requires step > 0
    ensures var r := Up(start, stop, step);
            (start <= stop <==> |r| > 0) &&
            (|r| > 0 ==> r[0] == start) &&
            (forall i :: 0 <= i < |r| ==> start <= r[i] <= stop) &&
            (forall i :: 0 <= i < |r| - 1 ==> r[i + 1] == r[i] + step)
    decreases stop - start + step
  {
    if start <= stop {
      UpShape(start + step, stop, step);
    }
  }

  /** The descending run starts at `start`, falls by `step` and stays within [stop, start]. */
  lemma {:induction false} DownShape(start: int, stop: int, step: nat)
    requires step > 0
    ensures var r := Down(start, stop, step);
            (start >= stop <==> |r| > 0) &&
            (|r| > 0 ==> r[0] == start) &&
            (forall i :: 0 <= i < |r| ==> stop <= r[i] <= start) &&
            (forall i :: 0 <= i < |r| - 1 ==> r[i + 1] == r[i] - step)
    decreases start - stop + step
  {
    if start >= stop {
      DownShape(start - step, stop, step);
    }
  }

  /** PX.frames: the frame indices from `start` to `stop`, every (skip + 1)th one. The
      counter is a uint, so the caller must keep the value at which the loop stops in
      range: below 2^32 for an ascending run, and at or above 0 for a descending one
      (otherwise the counter wraps and the loop does not end; see IterateDown). */
  method Frames(start: Uint, stop: Uint, skip: Uint) returns (a: seq<int>)
    requires skip + 1 < UintModulus
    requires start < stop ==> UpEnd(start, stop, skip + 1) < UintModulus
    requires start >= stop ==> DownEnd(start, stop, skip + 1) >= 0
    ensures start < stop ==> a == Up(start, stop, skip + 1)
    ensures start >= stop ==> a == Down(start, stop, skip + 1)
  {
    var step: Uint := skip + 1;
    a := [];
    var f: Uint := start;
    if f < stop {
      while f <= stop
        invariant UpEnd(f, stop, step) == UpEnd(start, stop, step)
        invariant a + Up(f, stop, step) == Up(start, stop, step)
        decreases stop - f
      {
        assert UpEnd(f, stop, step) == UpEnd(f + step, stop, step);
        a := a + [f];
        f := f + step;
      }
    } else {
      while f >= stop
        invariant DownEnd(f, stop, step) == DownEnd(start, stop, step)
        invariant a + Down(f, stop, step) == Down(start, stop, step)
        decreases f - stop
      {
        assert DownEnd(f, stop, step) == DownEnd(f - step, stop, step);
        a := a + [f];
        f := f - step;
      }
    }
  }

  /** uint subtraction, which wraps below 0. */
  function WrapSub(a: Uint, b: Uint): (r: Uint)
    ensures a >= b ==> r == a - b
    ensures a < b ==> r == a - b + UintModulus
  {
    (a - b) % UintModulus
  }

  /** The counter of the descending loop of PX.frames after `k` steps, as written. */
  function IterateDown(start: Uint, step: Uint, k: nat): Uint
  {
    if k == 0 then start else WrapSub(IterateDown(start, step, k - 1), step)
  }

  /** As written, once the descending counter is below the step, the next step wraps
      it to 2^32 - step or above, which is again at least `to` whenever `to` is at most
      2^32 - step (in particular for `to` = 0): the loop goes on. frames(5, 1, 2)
      counts 5, 2, then 2^32 - 1. */
  lemma FramesDownWraps(f: Uint, step: Uint, stop: Uint)
    requires 0 < step && f < step && stop <= UintModulus - step
    ensures WrapSub(f, step) >= UintModulus - step >= stop
    ensures IterateDown(5, 3, 2) == UintModulus - 1
  {
    assert IterateDown(5, 3, 1) == 2;
  }

  /** With the corrected descending branch, counting down to 0 ends after frame 0. */
  lemma FramesToZeroStops()
    ensures Down(3, 0, 1) == [3, 2, 1, 0]
  {
  }

  // ---------------------------------------------------------------- sort

  predicate Sorted(s: seq<int>)
  {
    forall i, j :: 0 <= i < j < |s| ==> s[i] <= s[j]
  }

  function Insert(x: int, s: seq<int>): (r: seq<int>)
    requires Sorted(s)
    ensures Sorted(r) && multiset(r) == multiset(s) + multiset{x}
    ensures |r| > 0 && r[0] == (if s == [] || x <= s[0] then x else s[0])
  {
    if s == [] || x <= s[0] then [x] + s
    else
      assert s == [s[0]] + s[1..];
      var rest := Insert(x, s[1..]);
      assert s[0] <= rest[0];
      [s[0]] + rest
  }

  /** PX.sort on the layer index: an ascending permutation of its input. */
  function SortAscending(s: seq<int>): (r: seq<int>)
    ensures Sorted(r) && multiset(r) == multiset(s)
  {
    if s == [] then []
    else
      assert s == [s[0]] + s[1..];
      Insert(s[0], SortAscending(s[1..]))
  }
}
