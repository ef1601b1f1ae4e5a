// The World's bookkeeping as values, apart from the class that holds it: the
// recycling stash, the order in which the update and render passes visit entities
// and the calls they make, the targets the "Into" queries fill, and the balance
// between the add and remove queues that updateLists relies on (with removeAll as
// written, which breaks it, and as intended).
module WorldModel {
  import opened Common
  import opened Entities
  import opened Lists
  import opened Scans
  import opened Chains
  import PX

  /** A call the World makes into an entity (an overridable hook, the entity's tweens or
      its graphic). The model records the call; the callee is taken to change nothing
      the World keeps. */
  datatype Hook =
    | Added(e: EntId)          // Entity.added
    | Removed(e: EntId)        // Entity.removed
    | TweensCleared(e: EntId)  // Tweener.clearTweens on an autoClear entity
    | TweensUpdated(e: EntId)  // Tweener.updateTweens
    | Updated(e: EntId)        // Entity.update
    | GraphicUpdated(e: EntId) // Graphic.update
    | Rendered(e: EntId)       // Entity.render

  // ---------------------------------------------------------------- recycling

  /** `_recycled` (the head of each class's stash) and `_recycleNext`. */
  datatype Stash = Stash(heads: map<string, EntId>, next: map<EntId, EntId>)

  const NoStash: Stash := Stash(map[], map[])

  ghost predicate StashOK(ents: map<EntId, Entity>, st: Stash)
  {
    (forall c :: c in st.heads ==> st.heads[c] in ents) &&
    (forall x :: x in st.next ==> x in ents && st.next[x] in ents)
  }

  /** World.recycle's stash step: `e` heads the class's stash and points at the old head
      (at null when there was none). */
  function Push(st: Stash, cls: string, e: EntId): (r: Stash)
    ensures r.heads == st.heads[cls := e]
    ensures e in r.next <==> cls in st.heads
    ensures cls in st.heads ==> r.next[e] == st.heads[cls]
    ensures forall x :: x != e ==> (x in r.next <==> x in st.next)
  {
    Stash(st.heads[cls := e], if cls in st.heads then st.next[e := st.heads[cls]] else st.next - {e})
  }

  /** World.create's stash step: the head, if any, is taken and its successor becomes
      the head; the taken entity's link is cleared. */
  function Pop(st: Stash, cls: string): (r: (Option<EntId>, Stash))
    ensures r.0.None? <==> cls !in st.heads
    ensures r.0.Some? ==> r.0.value == st.heads[cls] && r.0.value !in r.1.next
    ensures r.0.None? ==> r.1 == st
  {
    if cls !in st.heads then (None, st)
    else
      var e := st.heads[cls];
      (Some(e), Stash(if e in st.next then st.heads[cls := st.next[e]] else st.heads - {cls}, st.next - {e}))
  }

  /** create after recycle hands back the recycled entity and restores the stash, less
      the stale link the entity carried. */
  lemma PopAfterPush(st: Stash, cls: string, e: EntId)
    ensures Pop(Push(st, cls, e), cls) == (Some(e), Stash(st.heads, st.next - {e}))
  {
    var r := Push(st, cls, e);
    if cls in st.heads {
      assert r.heads[cls := r.next[e]] == st.heads;
      assert r.next - {e} == st.next - {e};
    } else {
      assert r.heads - {cls} == st.heads;
      assert r.next - {e} == st.next - {e};
    }
  }

  /** The stash of a class as a stack `s`: headed by the stored head, each entry linked
      to the next, the last linked to nothing. */
  ghost predicate Stacked(st: Stash, cls: string, s: seq<EntId>)
  {
    (s == [] <==> cls !in st.heads) && (s != [] ==> st.heads[cls] == s[0] && Threaded(st.next, s))
  }

  ghost predicate Threaded(next: map<EntId, EntId>, s: seq<EntId>)
  {
    s != [] && Distinct(s) && s[|s| - 1] !in next &&
    forall i :: 0 <= i < |s| - 1 ==> s[i] in next && next[s[i]] == s[i + 1]
  }

  /** create takes the top of the stack. */
  lemma PopStack(st: Stash, cls: string, s: seq<EntId>)
    requires Stacked(st, cls, s) && s != []
    ensures Pop(st, cls).0 == Some(s[0]) && Stacked(Pop(st, cls).1, cls, s[1..])
  {
    var r := Pop(st, cls).1;
    if |s| > 1 {
      var t := s[1..];
      forall i | 0 <= i < |t| - 1 ensures t[i] in r.next && r.next[t[i]] == t[i + 1] {
        assert t[i] == s[i + 1] && t[i + 1] == s[i + 2];
        assert s[i + 1] != s[0];
      }
      assert t[|t| - 1] == s[|s| - 1];
    }
  }

  /** recycle of an entity not on the stack pushes it on top. */
  lemma PushStack(st: Stash, cls: string, s: seq<EntId>, e: EntId)
    requires Stacked(st, cls, s) && e !in s
    ensures Stacked(Push(st, cls, e), cls, [e] + s)
  {
    var r, t := Push(st, cls, e), [e] + s;
    forall i | 0 <= i < |t| - 1 ensures t[i] in r.next && r.next[t[i]] == t[i + 1] {
      if i > 0 { assert t[i] == s[i - 1] && t[i + 1] == s[i]; }
    }
  }

  /** recycle does not look for the entity in the stash: an entity recycled, added back
      and recycled again is stored twice (linked to itself), and two creates then hand
      out the same entity. */
  lemma RecycledTwice(e: EntId)
    ensures var st := Push(Push(NoStash, "A", e), "A", e);
            Pop(st, "A").0 == Some(e) && Pop(Pop(st, "A").1, "A").0 == Some(e)
  {
  }

  /** The links clearRecycled leaves: it walks the stash from `cur`, clearing each
      entity's link, and stops at a null link. */
  function Strip(next: map<EntId, EntId>, cur: Option<EntId>): map<EntId, EntId>
    decreases |next|
  {
    match cur
    case None => next
    case Some(e) => if e in next then Strip(next - {e}, Some(next[e])) else next
  }

  /** The head of a class's stash, null when the class has none. */
  function Top(st: Stash, cls: string): (r: Option<EntId>)
    ensures r.Some? <==> cls in st.heads
  {
    if cls in st.heads then Some(st.heads[cls]) else None
  }

  /** clearRecycled only clears links: what it leaves is part of what it found. */
  lemma {:induction false} StripSub(next: map<EntId, EntId>, cur: Option<EntId>)
    ensures forall x :: x in Strip(next, cur) ==> x in next && Strip(next, cur)[x] == next[x]
    decreases |next|
  {
    if cur.Some? && cur.value in next {
      StripSub(next - {cur.value}, Some(next[cur.value]));
    }
  }

  /** On a stack, clearRecycled clears exactly the links of the stack's entities. */
  lemma {:induction false} StripStack(next: map<EntId, EntId>, s: seq<EntId>)
    requires Threaded(next, s)
    ensures Strip(next, Some(s[0])) == next - (set x | x in s)
    decreases |s|
  {
    if |s| == 1 {
      assert next - (set x | x in s) == next;
    } else {
      var n2 := next - {s[0]};
      var t := s[1..];
      forall i | 0 <= i < |t| - 1 ensures t[i] in n2 && n2[t[i]] == t[i + 1] {
        assert t[i] == s[i + 1] && t[i + 1] == s[i + 2];
        assert s[i + 1] != s[0];
      }
      assert t[|t| - 1] == s[|s| - 1];
      assert Threaded(n2, t);
      StripStack(n2, t);
      assert (set x | x in s) == {s[0]} + (set x | x in t);
      assert n2 - (set x | x in t) == next - (set x | x in s);
    }
  }

  // ---------------------------------------------------------------- the update pass

  /** The calls update makes on one entity: its tweens and its own update when it is
      active, then its graphic's update when it has an active graphic. */
  function UpdateStep(e: Entity, x: EntId): seq<Hook>
  {
    (if e.active then (if e.hasTweens then [TweensUpdated(x)] else []) + [Updated(x)] else []) +
    (if e.graphic.Some? && e.graphic.value.active then [GraphicUpdated(x)] else [])
  }

  /** The calls update makes walking the list `s`. */
  function UpdateCalls(ents: map<EntId, Entity>, s: seq<EntId>): seq<Hook>
    requires forall k :: 0 <= k < |s| ==> s[k] in ents
    decreases |s|
  {
    if s == [] then [] else UpdateCalls(ents, s[..|s| - 1]) + UpdateStep(ents[s[|s| - 1]], s[|s| - 1])
  }

  lemma UpdateCallsStep(ents: map<EntId, Entity>, s: seq<EntId>, k: nat)
    requires forall j :: 0 <= j < |s| ==> s[j] in ents
    requires k < |s|
    ensures UpdateCalls(ents, s[..k + 1]) == UpdateCalls(ents, s[..k]) + UpdateStep(ents[s[k]], s[k])
  {
    assert s[..k + 1][..k] == s[..k];
  }

  /** The calls made for `x` on a walk of `s` are those made for it as an entity of
      the list, and every call is one of the three kinds. */
  lemma {:induction false} UpdateCallsFor(ents: map<EntId, Entity>, s: seq<EntId>, x: EntId)
    requires forall k :: 0 <= k < |s| ==> s[k] in ents
    ensures Updated(x) in UpdateCalls(ents, s) <==> x in s && ents[x].active
    ensures TweensUpdated(x) in UpdateCalls(ents, s) <==> x in s && ents[x].active && ents[x].hasTweens
    ensures GraphicUpdated(x) in UpdateCalls(ents, s) <==> x in s && ents[x].graphic.Some? && ents[x].graphic.value.active
    ensures forall h :: h in UpdateCalls(ents, s) ==> h.Updated? || h.TweensUpdated? || h.GraphicUpdated?
    decreases |s|
  {
    if s != [] {
      var n := |s| - 1;
      var p := s[..n];
      assert forall k :: 0 <= k < n ==> p[k] == s[k];
      UpdateCallsFor(ents, p, x);
      StepCalls(ents[s[n]], s[n], x);
      var c, cp, st := UpdateCalls(ents, s), UpdateCalls(ents, p), UpdateStep(ents[s[n]], s[n]);
      assert c == cp + st;
      assert forall h :: h in c <==> h in cp || h in st;
      assert s == p + [s[n]];
      assert x in s <==> x in p || x == s[n];
    }
  }

  /** The calls made on one entity are for that entity, as its flags say. */
  lemma StepCalls(e: Entity, x: EntId, y: EntId)
    ensures Updated(y) in UpdateStep(e, x) <==> y == x && e.active
    ensures TweensUpdated(y) in UpdateStep(e, x) <==> y == x && e.active && e.hasTweens
    ensures GraphicUpdated(y) in UpdateStep(e, x) <==> y == x && e.graphic.Some? && e.graphic.value.active
    ensures forall h :: h in UpdateStep(e, x) ==> h.Updated? || h.TweensUpdated? || h.GraphicUpdated?
  {
  }

  /** Exactly the active entities of the list are updated, the active ones with tweens
      have their tweens updated, and exactly those with an active graphic have it
      updated; nothing else is called. */
  lemma UpdateCallsMeaning(ents: map<EntId, Entity>, s: seq<EntId>)
    requires forall k :: 0 <= k < |s| ==> s[k] in ents
    ensures forall x :: Updated(x) in UpdateCalls(ents, s) <==> x in s && ents[x].active
    ensures forall x :: TweensUpdated(x) in UpdateCalls(ents, s) <==> x in s && ents[x].active && ents[x].hasTweens
    ensures forall x :: GraphicUpdated(x) in UpdateCalls(ents, s) <==>
              x in s && ents[x].graphic.Some? && ents[x].graphic.value.active
    ensures forall h :: h in UpdateCalls(ents, s) ==> h.Updated? || h.TweensUpdated? || h.GraphicUpdated?
  {
    if s == [] {
    } else {
      UpdateCallsFor(ents, s, s[0]);
    }
    forall x ensures Updated(x) in UpdateCalls(ents, s) <==> x in s && ents[x].active
      ensures TweensUpdated(x) in UpdateCalls(ents, s) <==> x in s && ents[x].active && ents[x].hasTweens
      ensures GraphicUpdated(x) in UpdateCalls(ents, s) <==> x in s && ents[x].graphic.Some? && ents[x].graphic.value.active
    {
      UpdateCallsFor(ents, s, x);
    }
  }

  // ---------------------------------------------------------------- the render pass

  /** The order render visits entities: the layers from the end of the layer list to
      its start, each layer's list from its end to its head. `Drawn(R, layers, i)` is
      the visit of the layers at positions i and above. */
  function Drawn(R: map<int, seq<EntId>>, layers: seq<int>, i: nat): seq<EntId>
    requires i <= |layers|
    decreases |layers| - i
  {
    if i == |layers| then [] else Drawn(R, layers, i + 1) + Backwards(Chain(R, layers[i]))
  }

  function Backwards(s: seq<EntId>): (r: seq<EntId>)
    ensures |r| == |s| && forall k :: 0 <= k < |s| ==> r[k] == s[|s| - 1 - k]
    decreases |s|
  {
    if s == [] then [] else [s[|s| - 1]] + Backwards(s[..|s| - 1])
  }

  /** The render calls for a visit: the visible entities, in visiting order. */
  function Shown(ents: map<EntId, Entity>, s: seq<EntId>): seq<Hook>
    requires forall k :: 0 <= k < |s| ==> s[k] in ents
    decreases |s|
  {
    if s == [] then [] else Shown(ents, s[..|s| - 1]) + (if ents[s[|s| - 1]].visible then [Rendered(s[|s| - 1])] else [])
  }

  lemma ShownStep(ents: map<EntId, Entity>, s: seq<EntId>, k: nat)
    requires forall j :: 0 <= j < |s| ==> s[j] in ents
    requires k < |s|
    ensures Shown(ents, s[..k + 1]) == Shown(ents, s[..k]) + (if ents[s[k]].visible then [Rendered(s[k])] else [])
  {
    assert s[..k + 1][..k] == s[..k];
  }

  lemma {:induction false} ShownAppend(ents: map<EntId, Entity>, a: seq<EntId>, b: seq<EntId>)
    requires forall k :: 0 <= k < |a| ==> a[k] in ents
    requires forall k :: 0 <= k < |b| ==> b[k] in ents
    ensures forall k :: 0 <= k < |a + b| ==> (a + b)[k] in ents
    ensures Shown(ents, a + b) == Shown(ents, a) + Shown(ents, b)
    decreases |b|
  {
    if b == [] {
      assert a + b == a;
    } else {
      var c := a + b;
      assert c[..|c| - 1] == a + b[..|b| - 1];
      assert c[|c| - 1] == b[|b| - 1];
      ShownAppend(ents, a, b[..|b| - 1]);
    }
  }

  /** Exactly the visible entities of a visit are rendered. */
  lemma {:induction false} ShownMeaning(ents: map<EntId, Entity>, s: seq<EntId>)
    requires forall k :: 0 <= k < |s| ==> s[k] in ents
    ensures forall h :: h in Shown(ents, s) ==> h.Rendered?
    ensures forall x :: Rendered(x) in Shown(ents, s) <==> x in s && ents[x].visible
    decreases |s|
  {
    if s != [] {
      var p := s[..|s| - 1];
      assert forall k :: 0 <= k < |p| ==> p[k] == s[k];
      ShownMeaning(ents, p);
      assert s == p + [s[|s| - 1]];
    }
  }

  /** The visit holds exactly the entities of the listed layers. */
  lemma {:induction false} DrawnMembers(R: map<int, seq<EntId>>, layers: seq<int>, i: nat)
    requires i <= |layers|
    ensures forall x :: x in Drawn(R, layers, i) <==> exists j :: i <= j < |layers| && x in Chain(R, layers[j])
    decreases |layers| - i
  {
    if i < |layers| {
      DrawnMembers(R, layers, i + 1);
      var b := Backwards(Chain(R, layers[i]));
      assert forall x :: x in b <==> x in Chain(R, layers[i]) by {
        forall x ensures x in b <==> x in Chain(R, layers[i]) {
          var s := Chain(R, layers[i]);
          if x in b { var k :| 0 <= k < |b| && b[k] == x; assert s[|s| - 1 - k] == x; }
          if x in s { var k :| 0 <= k < |s| && s[k] == x; assert b[|s| - 1 - k] == x; }
        }
      }
    }
  }

  /** The visit from position `i` begins with the end of the last layer of the layer
      list and ends with the head of layer `layers[i]`. */
  lemma {:induction false} DrawnEnds(R: map<int, seq<EntId>>, layers: seq<int>, i: nat)
    requires i < |layers| && forall k :: 0 <= k < |layers| ==> layers[k] in R && R[layers[k]] != []
    ensures var d := Drawn(R, layers, i);
            var q := R[layers[|layers| - 1]];
            d != [] && d[0] == q[|q| - 1] && d[|d| - 1] == R[layers[i]][0]
    decreases |layers| - i
  {
    var b := Backwards(Chain(R, layers[i]));
    if i + 1 < |layers| {
      DrawnEnds(R, layers, i + 1);
    }
    assert b[|b| - 1] == R[layers[i]][0];
  }

  /** The visit holds entities of the arena when the lists do. */
  lemma DrawnWithin(ents: map<EntId, Entity>, R: map<int, seq<EntId>>, layers: seq<int>, i: nat)
    requires i <= |layers|
    requires forall l, k :: l in R && 0 <= k < |R[l]| ==> R[l][k] in ents
    ensures forall k :: 0 <= k < |Drawn(R, layers, i)| ==> Drawn(R, layers, i)[k] in ents
  {
    DrawnMembers(R, layers, i);
    forall k | 0 <= k < |Drawn(R, layers, i)| ensures Drawn(R, layers, i)[k] in ents {
      var x := Drawn(R, layers, i)[k];
      assert x in Drawn(R, layers, i);
      var j :| i <= j < |layers| && x in Chain(R, layers[j]);
      var q := Chain(R, layers[j]);
      var t :| 0 <= t < |q| && q[t] == x;
    }
  }

  /** One layer of the render walk: the visit from layer `i` on is the visit from layer
      `i + 1` on followed by layer `i` read backwards. */
  lemma DrawnStep(ents: map<EntId, Entity>, R: map<int, seq<EntId>>, layers: seq<int>, i: nat)
    requires i < |layers| && layers[i] in R
    requires forall l, k :: l in R && 0 <= k < |R[l]| ==> R[l][k] in ents
    ensures forall k :: 0 <= k < |Drawn(R, layers, i)| ==> Drawn(R, layers, i)[k] in ents
    ensures forall k {:trigger Drawn(R, layers, i + 1)[k]} :: 0 <= k < |Drawn(R, layers, i + 1)| ==> Drawn(R, layers, i + 1)[k] in ents
    ensures forall k :: 0 <= k < |Backwards(R[layers[i]])| ==> Backwards(R[layers[i]])[k] in ents
    ensures Shown(ents, Drawn(R, layers, i)) == Shown(ents, Drawn(R, layers, i + 1)) + Shown(ents, Backwards(R[layers[i]]))
  {
    DrawnWithin(ents, R, layers, i);
    DrawnWithin(ents, R, layers, i + 1);
    var b := Backwards(R[layers[i]]);
    assert Drawn(R, layers, i) == Drawn(R, layers, i + 1) + b;
    ShownAppend(ents, Drawn(R, layers, i + 1), b);
  }

  /** With the layer list sorted ascending, render visits higher layers first: along the
      visit, layers never increase. */
  lemma {:induction false} DrawnDepth(ents: map<EntId, Entity>, R: map<int, seq<EntId>>, layers: seq<int>, i: nat)
    requires i <= |layers| && PX.Sorted(layers) && LayerKeyed(ents, R)
    requires forall l :: l in layers ==> l in R
    ensures forall k :: 0 <= k < |Drawn(R, layers, i)| ==> Drawn(R, layers, i)[k] in ents
    ensures i < |layers| ==> forall k :: 0 <= k < |Drawn(R, layers, i)| ==> ents[Drawn(R, layers, i)[k]].layer >= layers[i]
    ensures forall p, q :: 0 <= p < q < |Drawn(R, layers, i)| ==>
              ents[Drawn(R, layers, i)[p]].layer >= ents[Drawn(R, layers, i)[q]].layer
    decreases |layers| - i
  {
    if i < |layers| {
      DrawnDepth(ents, R, layers, i + 1);
      var a, b := Drawn(R, layers, i + 1), Backwards(Chain(R, layers[i]));
      var d := a + b;
      assert layers[i] in R;
      assert forall k :: 0 <= k < |b| ==> b[k] in R[layers[i]];
      assert forall k :: 0 <= k < |b| ==> b[k] in ents && ents[b[k]].layer == layers[i];
      forall p, q | 0 <= p < q < |d| ensures ents[d[p]].layer >= ents[d[q]].layer {
        if q < |a| { assert d[p] == a[p] && d[q] == a[q]; }
        else if p < |a| { assert d[p] == a[p] && d[q] == b[q - |a|]; }
        else { assert d[p] == b[p - |a|] && d[q] == b[q - |a|]; }
      }
      forall k | 0 <= k < |d| ensures d[k] in ents && ents[d[k]].layer >= layers[i] {
        if k < |a| { assert d[k] == a[k]; } else { assert d[k] == b[k - |a|]; }
      }
    }
  }

  // ---------------------------------------------------------------- "Into" targets

  /** The `ref Object into` of the Into queries: an array, a List<Entity>, or anything
      else. Array cells hold entities or null. */
  datatype Into = ArrayOf(cells: seq<Option<EntId>>) | ListOf(items: seq<EntId>) | Other

  /** collideRectInto and collidePointInto: an array is written from index Length
      onward, so its first hit is out of range; a List gains the hits; anything else is
      a usage error. A failing test ends the walk with its fault. */
  function HitsInto(into: Into, s: seq<EntId>, test: nat --> Result<bool>): (r: (Into, Option<Fault>))
    requires forall k :: 0 <= k < |s| ==> test.requires(s[k])
    ensures !into.ListOf? ==> r.0 == into
    ensures into.Other? ==> r.1 == Some(UsageError)
    ensures into.ListOf? ==> r.0.ListOf? && |into.items| <= |r.0.items| <= |into.items| + |s| &&
                             r.0.items[..|into.items|] == into.items
  {
    match into
    case ArrayOf(_) =>
      (into, match Scan(s, test) case Err(f) => Some(f) case Ok(v) => if v.Some? then Some(IndexOutOfRange) else None)
    case ListOf(items) =>
      var g := Gather(s, test);
      assert (items + g.items)[..|items|] == items;
      (ListOf(items + g.items), g.fault)
    case Other => (into, Some(UsageError))
  }

  /** An array target is usable only when nothing is hit: the first hit is written past
      its end. A List target gains exactly the hits, in list order. */
  lemma HitsIntoMeaning(into: Into, s: seq<EntId>, test: nat --> Result<bool>)
    requires forall k :: 0 <= k < |s| ==> test.requires(s[k])
    requires forall k :: 0 <= k < |s| ==> test(s[k]).Ok?
    ensures into.ArrayOf? ==>
              (HitsInto(into, s, test).1 == Some(IndexOutOfRange) <==> exists k :: 0 <= k < |s| && test(s[k]) == Ok(true))
    ensures into.ArrayOf? ==> HitsInto(into, s, test).1 != Some(IndexOutOfRange) ==> HitsInto(into, s, test).1 == None
    ensures into.ListOf? ==>
              HitsInto(into, s, test).1 == None &&
              forall x :: x in HitsInto(into, s, test).0.items <==> x in into.items || (x in s && test(x) == Ok(true))
  {
    ScanFirst(s, test);
    GatherMeaning(s, test);
    if into.ArrayOf? && Scan(s, test) != Ok(None) {
      var k :| 0 <= k < |s| && Scan(s, test) == Settle(s[k], test(s[k])) && forall j :: 0 <= j < k ==> test(s[j]) == Ok(false);
    }
  }

  /** getType and getAll: every entity of the list is written, so an array target fails
      on a non-empty list, a List gains the whole list, and anything else is a usage
      error. */
  function AllInto(into: Into, s: seq<EntId>): (r: (Into, Option<Fault>))
    ensures into.ListOf? ==> r == (ListOf(into.items + s), None)
    ensures into.ArrayOf? ==> r == (into, if s == [] then None else Some(IndexOutOfRange))
    ensures into.Other? ==> r == (into, Some(UsageError))
  {
    match into
    case ArrayOf(_) => (into, if s == [] then None else Some(IndexOutOfRange))
    case ListOf(items) => (ListOf(items + s), None)
    case Other => (into, Some(UsageError))
  }

  // ---------------------------------------------------------------- queue balance

  /** World.add keeps every entity in balance: the entity joins the add queue as its
      world is set. */
  lemma AddBalance(ents: map<EntId, Entity>, aq: seq<EntId>, rq: seq<EntId>, id: nat, e: EntId)
    requires Balanced(ents, aq, rq, id) && e in ents && ents[e].world.None?
    ensures Balanced(ents[e := ents[e].(world := Some(id))], aq + [e], rq, id)
  {
    var ents2 := ents[e := ents[e].(world := Some(id))];
    forall x | x in ents2 ensures BalanceOf(ents2[x], multiset(aq + [e])[x], multiset(rq)[x], id) {
      assert BalanceOf(ents[x], multiset(aq)[x], multiset(rq)[x], id);
      assert multiset(aq + [e])[x] == multiset(aq)[x] + (if x == e then 1 else 0);
    }
  }

  /** World.remove keeps every entity in balance: the entity joins the remove queue as
      its world is cleared. */
  lemma RemoveBalance(ents: map<EntId, Entity>, aq: seq<EntId>, rq: seq<EntId>, id: nat, e: EntId)
    requires Balanced(ents, aq, rq, id) && e in ents && ents[e].world == Some(id)
    ensures Balanced(ents[e := ents[e].(world := None)], aq, rq + [e], id)
  {
    var ents2 := ents[e := ents[e].(world := None)];
    forall x | x in ents2 ensures BalanceOf(ents2[x], multiset(aq)[x], multiset(rq + [e])[x], id) {
      assert BalanceOf(ents[x], multiset(aq)[x], multiset(rq)[x], id);
      assert multiset(rq + [e])[x] == multiset(rq)[x] + (if x == e then 1 else 0);
    }
  }

  /** updateLists, remove pass, the patched case: an entity queued for removal that is
      not committed but is queued for addition is taken off the add queue instead. */
  lemma CancelBalance(ents: map<EntId, Entity>, aq: seq<EntId>, rq: seq<EntId>, id: nat)
    requires Balanced(ents, aq, rq, id) && rq != [] && rq[0] in ents && !ents[rq[0]].added && rq[0] in aq
    ensures Balanced(ents, Cut(aq, IndexOf(aq, rq[0])), rq[1..], id)
  {
    var e, i := rq[0], IndexOf(aq, rq[0]);
    assert aq == aq[..i] + [e] + aq[i + 1..];
    assert rq == [e] + rq[1..];
    forall x | x in ents ensures BalanceOf(ents[x], multiset(Cut(aq, i))[x], multiset(rq[1..])[x], id) {
      assert BalanceOf(ents[x], multiset(aq)[x], multiset(rq)[x], id);
      assert multiset(aq)[x] == multiset(Cut(aq, i))[x] + (if x == e then 1 else 0);
      assert multiset(rq)[x] == multiset(rq[1..])[x] + (if x == e then 1 else 0);
    }
  }

  /** updateLists, remove pass, the ordinary case: every other entry of the remove queue
      is a committed entity, and uncommitting it keeps the balance. */
  lemma RetireBalance(ents: map<EntId, Entity>, aq: seq<EntId>, rq: seq<EntId>, id: nat)
    requires Balanced(ents, aq, rq, id) && rq != [] && rq[0] in ents && (ents[rq[0]].added || rq[0] !in aq)
    ensures ents[rq[0]].added
    ensures Balanced(ents[rq[0] := ents[rq[0]].(added := false)], aq, rq[1..], id)
  {
    var e := rq[0];
    assert rq == [e] + rq[1..];
    assert BalanceOf(ents[e], multiset(aq)[e], multiset(rq)[e], id);
    var ents2 := ents[e := ents[e].(added := false)];
    forall x | x in ents2 ensures BalanceOf(ents2[x], multiset(aq)[x], multiset(rq[1..])[x], id) {
      assert BalanceOf(ents[x], multiset(aq)[x], multiset(rq)[x], id);
      assert multiset(rq)[x] == multiset(rq[1..])[x] + (if x == e then 1 else 0);
    }
  }

  /** updateLists, add pass: with the remove queue emptied, the head of the add queue is
      an uncommitted entity of this World, and committing it keeps the balance. */
  lemma CommitBalance(ents: map<EntId, Entity>, aq: seq<EntId>, id: nat)
    requires Balanced(ents, aq, [], id) && aq != [] && aq[0] in ents
    ensures ents[aq[0]].world == Some(id) && !ents[aq[0]].added && aq[0] !in aq[1..]
    ensures Balanced(ents[aq[0] := ents[aq[0]].(added := true)], aq[1..], [], id)
  {
    var e := aq[0];
    assert aq == [e] + aq[1..];
    assert BalanceOf(ents[e], multiset(aq)[e], 0, id);
    var ents2 := ents[e := ents[e].(added := true)];
    forall x | x in ents2 ensures BalanceOf(ents2[x], multiset(aq[1..])[x], 0, id) {
      assert BalanceOf(ents[x], multiset(aq)[x], 0, id);
      assert multiset(aq)[x] == multiset(aq[1..])[x] + (if x == e then 1 else 0);
    }
  }

  /** With both queues empty, an entity is committed exactly when it is in this World. */
  lemma SettledBalance(ents: map<EntId, Entity>, id: nat)
    requires Balanced(ents, [], [], id)
    ensures forall x :: x in ents ==> (ents[x].added <==> ents[x].world == Some(id))
  {
    forall x | x in ents ensures ents[x].added <==> ents[x].world == Some(id) {
      assert BalanceOf(ents[x], 0, 0, id);
    }
  }

  /** World.removeAll as written: every entity of the update list is queued for removal
      and has its world cleared, whether or not it is already on its way out. */
  function RemoveAllAsWritten(ents: map<EntId, Entity>, rq: seq<EntId>, s: seq<EntId>): (r: (map<EntId, Entity>, seq<EntId>))
    requires forall k :: 0 <= k < |s| ==> s[k] in ents
    ensures r.0.Keys == ents.Keys && r.1 == rq + s
    decreases |s|
  {
    if s == [] then (ents, rq)
    else
      var p := RemoveAllAsWritten(ents, rq, s[..|s| - 1]);
      var x := s[|s| - 1];
      assert s == s[..|s| - 1] + [x];
      (p.0[x := p.0[x].(world := None)], p.1 + [x])
  }

  /** removeAll as intended: remove(e) for each entity of the update list, which queues
      only the entities still in this World. */
  function RemoveAllFixed(ents: map<EntId, Entity>, rq: seq<EntId>, s: seq<EntId>, id: nat): (r: (map<EntId, Entity>, seq<EntId>))
    requires forall k :: 0 <= k < |s| ==> s[k] in ents
    ensures r.0.Keys == ents.Keys
    ensures |rq| <= |r.1| <= |rq| + |s| && r.1[..|rq|] == rq
    ensures forall k :: |rq| <= k < |r.1| ==> r.1[k] in s
    decreases |s|
  {
    if s == [] then (ents, rq)
    else
      var p := RemoveAllFixed(ents, rq, s[..|s| - 1], id);
      var x := s[|s| - 1];
      if p.0[x].world == Some(id) then (p.0[x := p.0[x].(world := None)], p.1 + [x]) else p
  }

  lemma RemoveAllFixedStep(ents: map<EntId, Entity>, rq: seq<EntId>, s: seq<EntId>, id: nat, k: nat)
    requires forall j :: 0 <= j < |s| ==> s[j] in ents
    requires k < |s|
    ensures var p := RemoveAllFixed(ents, rq, s[..k], id);
            RemoveAllFixed(ents, rq, s[..k + 1], id) ==
              if p.0[s[k]].world == Some(id) then (p.0[s[k] := p.0[s[k]].(world := None)], p.1 + [s[k]]) else p
  {
    assert s[..k + 1][..k] == s[..k];
  }

  /** The intended removeAll keeps the queues in balance, leaves every listed entity
      outside the World, and changes nothing but worlds. */
  lemma {:induction false} RemoveAllFixedBalance(ents: map<EntId, Entity>, aq: seq<EntId>, rq: seq<EntId>,
                                                 s: seq<EntId>, id: nat)
    requires forall k :: 0 <= k < |s| ==> s[k] in ents
    requires Balanced(ents, aq, rq, id)
    ensures Balanced(RemoveAllFixed(ents, rq, s, id).0, aq, RemoveAllFixed(ents, rq, s, id).1, id)
    ensures forall x :: x in s ==> RemoveAllFixed(ents, rq, s, id).0[x].world != Some(id)
    ensures forall x :: x in ents ==> RemoveAllFixed(ents, rq, s, id).0[x] == ents[x].(world := RemoveAllFixed(ents, rq, s, id).0[x].world)
    ensures forall x :: x in ents && x !in s ==> RemoveAllFixed(ents, rq, s, id).0[x] == ents[x]
    decreases |s|
  {
    if s != [] {
      var n := |s| - 1;
      var p := s[..n];
      assert forall k :: 0 <= k < n ==> p[k] == s[k];
      RemoveAllFixedBalance(ents, aq, rq, p, id);
      var q := RemoveAllFixed(ents, rq, p, id);
      if q.0[s[n]].world == Some(id) {
        RemoveBalance(q.0, aq, q.1, id, s[n]);
      }
      assert s == p + [s[n]];
    }
  }

  /** removeAll as written breaks the balance: an entity committed to the World and
      already queued for removal (its world cleared) is queued a second time. When
      updateLists reaches the second entry the entity is neither committed nor queued
      for addition, and its list links are taken apart a second time. */
  lemma RemoveAllDoubleQueues()
    ensures var ents := map[0 := NewEntity("E").(added := true)];
            var r := RemoveAllAsWritten(ents, [0], [0]);
            Balanced(ents, [], [0], 1) && r.1 == [0, 0] && !Balanced(r.0, [], r.1, 1)
  {
    var ents := map[0 := NewEntity("E").(added := true)];
    var r := RemoveAllAsWritten(ents, [0], [0]);
    assert multiset([0])[0] == 1;
    assert multiset([0, 0])[0] == 2;
    assert !BalanceOf(r.0[0], 0, multiset(r.1)[0], 1);
  }
}
