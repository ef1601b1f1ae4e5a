// Tween.cs and Tweener.cs: the tween objects and the container that runs them. A
// Tweener keeps its tweens in a doubly-linked list threaded through the tweens'
// `_prev`/`_next` fields and headed by `_tween`, newest first; each tween points back
// at its container through `_parent`. The ghost sequence `items` is that list in
// order, and `Valid()` ties it to the links.
//
// `_type`, `_target` and `_ease` are set once by the constructor and never written
// again, so they are constants here; so is the completion callback, of which the
// model keeps only whether it is there and counts how often it runs.
module Tweens {
  import opened Common
  import opened TweenValues

  class Tween {
    var active: bool
    var time: real
    var t: Scalar
    var finish: bool
    var completions: nat
    const kind: nat
    const target: nat
    const ease: Option<real -> real>
    const hasComplete: bool
    var parent: Tweener?
    var prev: Tween?
    var next: Tween?

    /** The fields start, update and finish change. */
    function Val(): TweenVal
      reads this`active, this`time, this`t, this`finish, this`completions
    {
      TweenVal(active, time, t, finish, completions)
    }

    /** This tween finishes on the update that a tick at `step` gives it, and is a
        ONESHOT, so the tick detaches it. */
    predicate StopsAt(step: real)
      reads this`active, this`time, this`t, this`finish, this`completions
    {
      Stops(Val(), kind, target, ease, step)
    }

    /** What a tick of its Tweener at `step` makes of this tween's state. */
    function Ticked(step: real): TweenVal
      reads this`active, this`time, this`t, this`finish, this`completions
    {
      Tick(Val(), kind, target, ease, hasComplete, step)
    }

    /** The tween before this one on its list, as a set (empty at the head). */
    ghost function Before(): set<Tween>
      reads this
    {
      if prev == null then {} else {prev}
    }

    /** The tween after this one on its list, as a set (empty at the tail). */
    ghost function After(): set<Tween>
      reads this
    {
      if next == null then {} else {next}
    }

    /** What a ONESHOT finish rewrites when it leaves its Tweener: the Tweener and
        this tween itself. */
    ghost function Leaving(): set<object>
      reads this
    {
      if kind == ONESHOT && parent != null then {parent, this} else {}
    }

    /** The neighbours whose links a ONESHOT finish rewrites. */
    ghost function LeavingBefore(): set<Tween>
      reads this
    {
      if kind == ONESHOT && parent != null then Before() else {}
    }

    ghost function LeavingAfter(): set<Tween>
      reads this
    {
      if kind == ONESHOT && parent != null then After() else {}
    }

    /** `new Tween(duration, type, onCompletion, ease)`. */
    constructor (duration: nat, kind: nat, hasComplete: bool, ease: Option<real -> real>)
      ensures Val() == Fresh
      ensures target == duration && this.kind == kind && this.hasComplete == hasComplete && this.ease == ease
      ensures parent == null && prev == null && next == null
    {
      active, time, t, finish, completions := false, 0.0, Finite(0.0), false, 0;
      this.kind, target, this.hasComplete, this.ease := kind, duration, hasComplete, ease;
      parent, prev, next := null, null, null;
    }

    /** Tween.start. */
    method Start()
      modifies this`time, this`active
      ensures Val() == Started(old(Val()), target)
    {
      time := 0.0;
      if target == 0 {
        active := false;
        return;
      }
      active := true;
    }

    /** Tween.update: the clock advances by one frame in fixed-frame mode and by
        `elapsed` otherwise (PX.fixedFrameRate and PX.elapsed). */
    method Update(fixedFrameRate: bool, elapsed: real)
      modifies this`time, this`t, this`finish
      ensures Val() == Updated(old(Val()), target, ease, Step(fixedFrameRate, elapsed))
    {
      time := time + if fixedFrameRate then 1.0 else elapsed;
      t := Quotient(time, target);
      if ease.Some? && t.Finite? && 0.0 < t.v && t.v < 1.0 {
        t := Finite(ease.value(t.v));
      }
      if time >= target as real {
        t := Finite(1.0);
        finish := true;
      }
    }

    /** Tween.finish. A ONESHOT tween leaves its Tweener through `_parent`, which
        dereferences null when it has none; the exception comes after the clock and
        the active flag have been written, and before the finish mark is cleared and
        the callback runs. */
    method Finish() returns (fault: Option<Fault>)
      requires parent != null ==> parent.Valid() && this in parent.items
      modifies this`active, this`time, this`t, this`finish, this`completions, Leaving(), LeavingBefore()`next, LeavingAfter()`prev
      ensures fault.Some? <==> kind == ONESHOT && old(parent) == null
      ensures fault.Some? ==> fault.value == NullReference && Val() == old(Val()).(time := target as real, active := false)
      ensures fault.None? ==> Val() == Finished(old(Val()), kind, target, ease, hasComplete)
      ensures kind == ONESHOT && old(parent) != null ==>
                parent == null && prev == null && next == null && old(parent).Valid() &&
                old(parent).items == Cut(old(parent.items), IndexOf(old(parent.items), this))
    {
      if kind == PERSIST {
        time := target as real;
        active := false;
      } else if kind == LOOPING {
        // the clock's remainder is overwritten at once by start(); only the scale
        // computed from it survives
        t := Eased(ScalarQuotient(Remainder(time, target), target), ease);
        Start();
      } else if kind == ONESHOT {
        fault := Leave();
        if fault.Some? {
          return;
        }
      }
      finish := false;
      if hasComplete {
        completions := completions + 1;
      }
      fault := None;
    }

    /** The ONESHOT branch of Tween.finish: the tween stops at the end of its run and
        leaves its Tweener through `_parent`, dereferencing null when it has none. */
    method Leave() returns (fault: Option<Fault>)
      requires kind == ONESHOT
      requires parent != null ==> parent.Valid() && this in parent.items
      modifies this`active, this`time, Leaving(), LeavingBefore()`next, LeavingAfter()`prev
      ensures fault.Some? <==> old(parent) == null
      ensures fault.Some? ==> fault.value == NullReference
      ensures Val() == old(Val()).(time := target as real, active := false)
      ensures old(parent) != null ==>
                parent == null && prev == null && next == null && old(parent).Valid() &&
                old(parent).items == Cut(old(parent.items), IndexOf(old(parent.items), this))
    {
      time := target as real;
      active := false;
      if parent == null {
        return Some(NullReference);
      }
      var f := parent.RemoveTween(this);
      fault := None;
    }

    /** The getter of Tween.percent: the clock over the duration. */
    function Percent(): (r: Scalar)
      reads this`time
      ensures r.Finite? <==> target != 0
      ensures r.Finite? ==> r.v * target as real == time
    {
      Quotient(time, target)
    }

    /** The setter of Tween.percent: the clock becomes that fraction of the duration. */
    method SetPercent(value: real)
      modifies this`time
      ensures time == target as real * value && (target != 0 ==> Percent() == Finite(value))
    {
      time := target as real * value;
      PercentRoundTrip(target, value);
    }

    /** Tween.scale: the scale after easing. */
    function Scale(): Scalar
      reads this`t
    {
      t
    }
  }

  class Tweener {
    var active: bool
    var autoClear: bool
    var tween: Tween?
    ghost var items: seq<Tween>

    /** `_tween` heads `items`, each tween on it has this Tweener as its parent, and
        `_prev`/`_next` link each one to its neighbours in `items`. */
    ghost predicate Valid()
      reads this, items`parent, items`prev, items`next
    {
      (if items == [] then tween == null else tween == items[0]) && Chained(items, this)
    }

    /** The head tween, as a set (empty when the list is). */
    ghost function Head(): set<Tween>
      reads this
    {
      if tween == null then {} else {tween}
    }

    /** `new Tweener()`. */
    constructor ()
      ensures Valid() && items == [] && !active && !autoClear
    {
      active, autoClear, tween := false, false, null;
      items := [];
    }

    /** Tweener.addTween: a tween that already has a parent is refused (null is
        returned and nothing changes); otherwise it becomes the new head, started
        when `start` is set. A tween without a parent is not linked to anything. */
    method AddTween(t: Tween, start: bool) returns (r: Tween?)
      requires Valid() && (t.parent == null ==> t.prev == null)
      modifies this, t, Head()`prev
      ensures Valid()
      ensures old(t.parent) != null ==> r == null && items == old(items) && unchanged(this, t) && unchanged(old(items))
      ensures old(t.parent) == null ==>
                r == t && items == [t] + old(items) &&
                t.Val() == if start then Started(old(t.Val()), t.target) else old(t.Val())
      ensures forall u :: u in old(items) ==> u.Val() == old(u.Val())
    {
      if t.parent != null {
        return null;
      }
      t.parent := this;
      t.next := tween;
      if tween != null {
        tween.prev := t;
      }
      tween := t;
      items := [t] + items;
      if start {
        t.Start();
      }
      r := t;
    }

    /** Tweener.removeTween: a tween of another container, or of none, is refused
        with an exception; otherwise it is unlinked from its neighbours, the rest
        keeping their order, and left with no links, no parent and inactive. */
    method RemoveTween(t: Tween) returns (fault: Option<Fault>)
      requires Valid() && (t.parent == this ==> t in items)
      modifies this, t, t.Before()`next, t.After()`prev
      ensures Valid()
      ensures fault.Some? <==> old(t.parent) != this
      ensures fault.Some? ==> fault.value == NotOwner && items == old(items) && unchanged(this, t) && unchanged(old(items))
      ensures fault.None? ==>
                items == Cut(old(items), IndexOf(old(items), t)) &&
                t.parent == null && t.prev == null && t.next == null && t.Val() == old(t.Val()).(active := false)
    {
      if t.parent != this {
        return Some(NotOwner);
      }
      ghost var s := items;
      ghost var k := IndexOf(items, t);
      var n := t.next;
      var p := t.prev;
      Unlink(t, s, k);
      if p == null {
        tween := n;
      }
      t.next, t.prev := null, null;
      t.parent := null;
      t.active := false;
      items := Cut(s, k);
      fault := None;
    }

    /** addTween of a tween with no parent, then removeTween of it: the list is as it
        was, and the tween is detached and inactive. */
    method AddThenRemove(t: Tween, start: bool)
      requires Valid() && t.parent == null && t.prev == null
      modifies this, t, Head()`prev
      ensures Valid() && items == old(items)
      ensures t.parent == null && t.prev == null && t.next == null && !t.active
    {
      var r := AddTween(t, start);
      var fault := RemoveTween(t);
    }

    /** The neighbours of `s[k]` are linked to each other, which leaves the rest of
        `s` a chain without it. */
    method Unlink(t: Tween, ghost s: seq<Tween>, ghost k: nat)
      requires Chained(s, this) && k < |s| && s[k] == t
      modifies t.Before()`next, t.After()`prev
      ensures Chained(Cut(s, k), this) && t !in Cut(s, k)
      ensures t.prev == old(t.prev) && t.next == old(t.next)
      ensures old(t.prev) == if k == 0 then null else s[k - 1]
      ensures old(t.next) == if k + 1 < |s| then s[k + 1] else null
    {
      assert s[k].prev == if k == 0 then null else s[k - 1];
      assert s[k].next == if k + 1 < |s| then s[k + 1] else null;
      if t.next != null {
        t.next.prev := t.prev;
      }
      if t.prev != null {
        t.prev.next := t.next;
      }
      ghost var r := Cut(s, k);
      DistinctCut(s, k);
      forall i | 0 <= i < |r|
        ensures r[i].parent == this
        ensures r[i].prev == if i == 0 then null else r[i - 1]
        ensures r[i].next == if i + 1 < |r| then r[i + 1] else null
      {
        if i < k {
          assert r[i] == s[i] && s[i].parent == this;
          assert old(s[i].prev) == if i == 0 then null else s[i - 1];
          if i + 1 < k {
            assert old(s[i].next) == s[i + 1];
          }
        } else {
          assert r[i] == s[i + 1] && s[i + 1].parent == this;
          assert old(s[i + 1].next) == if i + 2 < |s| then s[i + 2] else null;
          if i > k {
            assert old(s[i + 1].prev) == s[i];
          }
        }
      }
    }

    /** Tweener.clearTweens: every tween is removed, head first. */
    method ClearTweens()
      requires Valid()
      modifies this, items
      ensures Valid() && items == [] && tween == null
      ensures forall u :: u in old(items) ==> u.parent == null && u.prev == null && u.next == null && !u.active
    {
      ghost var s := items;
      ghost var i := 0;
      var t := tween;
      while t != null
        invariant Valid() && Distinct(s) && 0 <= i <= |s| && items == s[i..]
        invariant t == if i < |s| then s[i] else null
        invariant Cleared(s, i)
        decreases |s| - i
      {
        var n := t.next;
        assert n == if i + 1 < |s| then s[i + 1] else null;
        RemoveHead(t, s, i);
        t := n;
        i := i + 1;
      }
    }

    /** One step of Tweener.clearTweens: the head `s[i]` is removed, which leaves the
        tweens after it on the list and the ones before it as they were. */
    method RemoveHead(t: Tween, ghost s: seq<Tween>, ghost i: nat)
      requires Valid() && Distinct(s) && i < |s| && items == s[i..] && t == s[i]
      requires Cleared(s, i)
      modifies this, t, t.Before()`next, t.After()`prev
      ensures Valid() && items == s[i + 1..] && Cleared(s, i + 1)
    {
      assert t.prev == null && IndexOf(items, t) == 0;
      var f := RemoveTween(t);
      assert items == s[i + 1..] by {
        assert Cut(s[i..], 0) == s[i..][1..] == s[i + 1..];
      }
      forall j | 0 <= j < i
        ensures s[j].parent == null && s[j].prev == null && s[j].next == null && !s[j].active
      {
        assert s[j] != t && s[j] !in t.After();
      }
    }

    /** Tweener.updateTweens at a frame whose step is `Step(fixedFrameRate, elapsed)`:
        every tween from the head on gets its tick, up to and including the first
        ONESHOT that finishes; that one leaves the list, which nulls its `_next`, so
        the tweens after it wait for the next frame. */
    method UpdateTweens(fixedFrameRate: bool, elapsed: real)
      requires Valid()
      modifies this, items
      ensures Valid()
      ensures var s := old(items); var k := old(FirstStop(items, Step(fixedFrameRate, elapsed)));
              items == (if k < |s| then Cut(s, k) else s) &&
              (k < |s| ==> s[k].parent == null && s[k].prev == null && s[k].next == null) &&
              forall j :: 0 <= j < |s| ==>
                s[j].Val() == if j <= k then old(s[j].Ticked(Step(fixedFrameRate, elapsed))) else old(s[j].Val())
    {
      ghost var step := Step(fixedFrameRate, elapsed);
      ghost var s := items;
      ghost var before := Vals(s);
      ghost var k := FirstStop(items, step);
      assert k == StopIndex(s, before, step);
      ghost var i := 0;
      ghost var stopped := false;
      var t := tween;
      while t != null
        invariant Valid() && Distinct(s) && 0 <= i <= |s| && i <= k + 1
        invariant !stopped ==> items == s && i <= k && t == if i < |s| then s[i] else null
        invariant stopped ==> t == null && k < |s| && i == k + 1 && items == Cut(s, k) &&
                              s[k].parent == null && s[k].prev == null && s[k].next == null
        invariant Reached(s, before, i, step)
        decreases |s| - i
      {
        stopped := TickTween(t, fixedFrameRate, elapsed, s, i);
        assert stopped <==> i == k;
        t := t.next;
        i := i + 1;
      }
    }

    /** One step of Tweener.updateTweens: `t`, on this list, gets its tick, and leaves
        the list when that finishes it as a ONESHOT. */
    method TickTween(t: Tween, fixedFrameRate: bool, elapsed: real, ghost s: seq<Tween>, ghost i: nat)
        returns (ghost stopped: bool)
      requires Valid() && items == s && i < |s| && s[i] == t
      modifies this, t, t.Before()`next, t.After()`prev
      ensures Valid()
      ensures t.Val() == Tick(old(t.Val()), t.kind, t.target, t.ease, t.hasComplete, Step(fixedFrameRate, elapsed))
      ensures stopped <==> Stops(old(t.Val()), t.kind, t.target, t.ease, Step(fixedFrameRate, elapsed))
      ensures forall j :: 0 <= j < |s| && j != i ==> s[j].Val() == old(s[j].Val())
      ensures !stopped ==> items == s && t.next == if i + 1 < |s| then s[i + 1] else null
      ensures stopped ==> items == Cut(s, i) && t.parent == null && t.prev == null && t.next == null
    {
      stopped := t.StopsAt(Step(fixedFrameRate, elapsed));
      DistinctIndexOf(s, i);
      if t.active {
        t.Update(fixedFrameRate, elapsed);
        if t.finish {
          FinishAt(t, s, i);
        }
      }
    }

    /** `t.finish()` called on `s[i]`, a tween of this list: a ONESHOT leaves the list,
        any other kind keeps its place. */
    method FinishAt(t: Tween, ghost s: seq<Tween>, ghost i: nat)
      requires Valid() && items == s && i < |s| && s[i] == t
      modifies this, t, t.Before()`next, t.After()`prev
      ensures Valid()
      ensures t.Val() == Finished(old(t.Val()), t.kind, t.target, t.ease, t.hasComplete)
      ensures t.kind != ONESHOT ==> items == s && t.next == old(t.next)
      ensures t.kind == ONESHOT ==> items == Cut(s, i) && t.parent == null && t.prev == null && t.next == null
    {
      DistinctIndexOf(s, i);
      var f := t.Finish();
    }
  }

  /** `s` is the list of `owner`: no tween twice, each with `owner` as its parent and
      `_prev`/`_next` pointing at its neighbours in `s`. */
  ghost predicate Chained(s: seq<Tween>, owner: Tweener)
    reads s`parent, s`prev, s`next
  {
    Distinct(s) &&
    (forall i :: 0 <= i < |s| ==> s[i].parent == owner) &&
    (forall i {:trigger s[i].prev} :: 0 <= i < |s| ==> s[i].prev == if i == 0 then null else s[i - 1]) &&
    (forall i {:trigger s[i].next} :: 0 <= i < |s| ==> s[i].next == if i + 1 < |s| then s[i + 1] else null)
  }

  /** The tweens of `s` before position `i` have had their tick at `step` and the
      rest are as they were, `before` giving the states they all started from. */
  ghost predicate Reached(s: seq<Tween>, before: seq<TweenVal>, i: nat, step: real)
    reads s`active, s`time, s`t, s`finish, s`completions
  {
    |before| == |s| &&
    forall j :: 0 <= j < |s| ==>
      s[j].Val() == if j < i then Tick(before[j], s[j].kind, s[j].target, s[j].ease, s[j].hasComplete, step) else before[j]
  }

  /** The tweens of `s` before position `i` have left their list: no parent, no
      links, inactive. */
  ghost predicate Cleared(s: seq<Tween>, i: nat)
    reads s`parent, s`prev, s`next, s`active
  {
    forall j :: 0 <= j < i && j < |s| ==>
      s[j].parent == null && s[j].prev == null && s[j].next == null && !s[j].active
  }

  /** The states of the tweens of `s`, in order. */
  ghost function Vals(s: seq<Tween>): (r: seq<TweenVal>)
    reads s`active, s`time, s`t, s`finish, s`completions
    ensures |r| == |s| && forall j :: 0 <= j < |s| ==> r[j] == s[j].Val()
  {
    if s == [] then [] else [s[0].Val()] + Vals(s[1..])
  }

  /** The position of the first tween that a tick at `step` detaches, or the length
      of `s` when there is none. */
  ghost function FirstStop(s: seq<Tween>, step: real): (k: nat)
    reads s`active, s`time, s`t, s`finish, s`completions
    ensures k <= |s|
    ensures forall j :: 0 <= j < k ==> !s[j].StopsAt(step)
    ensures k < |s| ==> s[k].StopsAt(step)
  {
    StopIndex(s, Vals(s), step)
  }

  /** FirstStop, for tweens whose states are `vs`. */
  function StopIndex(s: seq<Tween>, vs: seq<TweenVal>, step: real): (k: nat)
    requires |vs| == |s|
    ensures k <= |s|
    ensures forall j :: 0 <= j < k ==> !Stops(vs[j], s[j].kind, s[j].target, s[j].ease, step)
    ensures k < |s| ==> Stops(vs[k], s[k].kind, s[k].target, s[k].ease, step)
  {
    if s == [] then 0
    else if Stops(vs[0], s[0].kind, s[0].target, s[0].ease, step) then 0
    else 1 + StopIndex(s[1..], vs[1..], step)
  }
}
