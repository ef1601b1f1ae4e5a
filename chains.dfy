// Intrusive doubly linked lists over entity handles. The World threads each
// entity onto up to three such lists (update, render per layer, type) through
// prev/next fields of the entity; here each kind of link is a map from handle
// to its pair of links, and a ghost sequence names the list's order.
module Chains {
  import opened Common

  /** The prev/next links one entity carries for one list. */
  datatype Links = Links(prev: Option<nat>, next: Option<nat>)

  /** Both links null: the entity is on no list of this kind. */
  const Loose: Links := Links(None, None)

  type LinkMap = map<nat, Links>

  /** The links of `x`; an entity never linked has null links. */
  function At(lk: LinkMap, x: nat): Links
  {
    if x in lk then lk[x] else Loose
  }

  function Head(s: seq<nat>): (r: Option<nat>)
    ensures r.None? <==> s == []
  {
    if s == [] then None else Some(s[0])
  }

  function Tail(s: seq<nat>): (r: Option<nat>)
    ensures r.None? <==> s == []
  {
    if s == [] then None else Some(s[|s| - 1])
  }

  /** The links the element at index `k` of list `s` must carry. */
  function Expected(s: seq<nat>, k: nat): Links
    requires k < |s|
  {
    Links(if k == 0 then None else Some(s[k - 1]), if k == |s| - 1 then None else Some(s[k + 1]))
  }

  /** `s` is a well-formed list in `lk`: no repeats, and each element points at its
      neighbours, with null at both ends. */
  ghost predicate Linked(lk: LinkMap, s: seq<nat>)
  {
    Distinct(s) && forall k {:trigger At(lk, s[k])} :: 0 <= k < |s| ==> At(lk, s[k]) == Expected(s, k)
  }

  /** Removing `x` from its list: the successor's prev and the predecessor's next
      skip over it, then both of its own links are nulled. */
  function Unlink(lk: LinkMap, x: nat): LinkMap
  {
    var l := At(lk, x);
    var m1 := if l.next.Some? then lk[l.next.value := At(lk, l.next.value).(prev := l.prev)] else lk;
    var m2 := if l.prev.Some? then m1[l.prev.value := At(m1, l.prev.value).(next := l.next)] else m1;
    m2[x := Loose]
  }

  /** Placing `x` directly in front of `a`. */
  function LinkBefore(lk: LinkMap, x: nat, a: nat): LinkMap
  {
    var p := At(lk, a).prev;
    var m1 := lk[x := Links(p, Some(a))];
    var m2 := m1[a := At(m1, a).(prev := Some(x))];
    if p.Some? then m2[p.value := At(m2, p.value).(next := Some(x))] else m2
  }

  /** Placing `x` directly behind `a`. */
  function LinkAfter(lk: LinkMap, x: nat, a: nat): LinkMap
  {
    var n := At(lk, a).next;
    var m1 := lk[x := Links(Some(a), n)];
    var m2 := m1[a := At(m1, a).(next := Some(x))];
    if n.Some? then m2[n.value := At(m2, n.value).(prev := Some(x))] else m2
  }

  /** Placing `x` at the head of the list whose head is `head`. */
  function PushFront(lk: LinkMap, x: nat, head: Option<nat>): LinkMap
  {
    if head.None? then lk[x := Loose] else LinkBefore(lk, x, head.value)
  }

  /** Two link maps that agree on the elements of `s` agree on whether `s` is linked. */
  lemma LinkedFrame(a: LinkMap, b: LinkMap, s: seq<nat>)
    requires forall k :: 0 <= k < |s| ==> At(a, s[k]) == At(b, s[k])
    ensures Linked(a, s) <==> Linked(b, s)
  {
  }

  /** Unlinking the element at index `i` leaves the rest of the list linked, in order,
      detaches the element, and touches no entity outside the list. */
  lemma UnlinkLinked(lk: LinkMap, s: seq<nat>, i: nat)
    requires Linked(lk, s) && i < |s|
    ensures Linked(Unlink(lk, s[i]), Cut(s, i))
    ensures At(Unlink(lk, s[i]), s[i]) == Loose
    ensures forall y :: y !in s ==> At(Unlink(lk, s[i]), y) == At(lk, y)
  {
    var x, m, t := s[i], Unlink(lk, s[i]), Cut(s, i);
    DistinctCut(s, i);
    assert At(lk, x) == Expected(s, i);
    forall k | 0 <= k < |t| ensures At(m, t[k]) == Expected(t, k) {
      if k < i - 1 {
        assert t[k] == s[k] && At(lk, s[k]) == Expected(s, k);
        assert s[k] != s[i] && s[k] != s[i - 1];
        assert i + 1 < |s| ==> s[k] != s[i + 1];
      } else if k == i - 1 {
        assert t[k] == s[i - 1] && At(lk, s[i - 1]) == Expected(s, i - 1);
        assert s[i - 1] != s[i];
        assert i + 1 < |s| ==> s[i - 1] != s[i + 1];
      } else if k == i {
        assert t[k] == s[i + 1] && At(lk, s[i + 1]) == Expected(s, i + 1);
        assert s[i + 1] != s[i];
        assert i > 0 ==> s[i + 1] != s[i - 1];
      } else {
        assert t[k] == s[k + 1] && At(lk, s[k + 1]) == Expected(s, k + 1);
        assert s[k + 1] != s[i] && s[k + 1] != s[i + 1];
        assert i > 0 ==> s[k + 1] != s[i - 1];
      }
    }
  }

  /** Inserting a fresh element keeps a list free of repeats. */
  lemma DistinctInsert(s: seq<nat>, j: nat, x: nat)
    requires Distinct(s) && j <= |s| && x !in s
    ensures Distinct(s[..j] + [x] + s[j..])
  {
    var t := s[..j] + [x] + s[j..];
    forall p, q | 0 <= p < q < |t| ensures t[p] != t[q] {
      if q < j { assert t[p] == s[p] && t[q] == s[q]; }
      else if q == j { assert t[p] == s[p]; }
      else if p < j { assert t[p] == s[p] && t[q] == s[q - 1]; }
      else if p == j { assert t[q] == s[q - 1]; }
      else { assert t[p] == s[p - 1] && t[q] == s[q - 1]; }
    }
  }

  /** The links of every entity after LinkBefore. */
  lemma LinkBeforeAt(lk: LinkMap, x: nat, a: nat, y: nat)
    requires x != a
    requires At(lk, a).prev != Some(x) && At(lk, a).prev != Some(a)
    ensures var p := At(lk, a).prev;
            At(LinkBefore(lk, x, a), y) ==
              if y == x then Links(p, Some(a))
              else if y == a then At(lk, a).(prev := Some(x))
              else if p == Some(y) then At(lk, y).(next := Some(x))
              else At(lk, y)
  {
  }

  /** The links of every entity after LinkAfter. */
  lemma LinkAfterAt(lk: LinkMap, x: nat, a: nat, y: nat)
    requires x != a
    requires At(lk, a).next != Some(x) && At(lk, a).next != Some(a)
    ensures var n := At(lk, a).next;
            At(LinkAfter(lk, x, a), y) ==
              if y == x then Links(Some(a), n)
              else if y == a then At(lk, a).(next := Some(x))
              else if n == Some(y) then At(lk, y).(prev := Some(x))
              else At(lk, y)
  {
  }

  /** Linking a new element in front of the element at index `j` yields the list with
      the element inserted there, and touches no other entity outside the list. */
  lemma LinkBeforeLinked(lk: LinkMap, s: seq<nat>, j: nat, x: nat)
    requires Linked(lk, s) && j < |s| && x !in s
    ensures Linked(LinkBefore(lk, x, s[j]), s[..j] + [x] + s[j..])
    ensures forall y :: y !in s && y != x ==> At(LinkBefore(lk, x, s[j]), y) == At(lk, y)
  {
    var m, t := LinkBefore(lk, x, s[j]), s[..j] + [x] + s[j..];
    assert At(lk, s[j]) == Expected(s, j);
    assert j > 0 ==> s[j - 1] != s[j];
    DistinctInsert(s, j, x);
    forall y | y !in s && y != x ensures At(m, y) == At(lk, y) {
      LinkBeforeAt(lk, x, s[j], y);
    }
    forall k | 0 <= k < |t| ensures At(m, t[k]) == Expected(t, k) {
      LinkBeforeAt(lk, x, s[j], t[k]);
      if k < j {
        assert t[k] == s[k] && At(lk, s[k]) == Expected(s, k);
        assert s[k] != s[j];
      } else if k > j {
        assert t[k] == s[k - 1] && At(lk, s[k - 1]) == Expected(s, k - 1);
        assert j > 0 ==> s[k - 1] != s[j - 1];
      }
    }
  }

  /** Linking a new element behind the element at index `j` yields the list with the
      element inserted after it, and touches no other entity outside the list. */
  lemma LinkAfterLinked(lk: LinkMap, s: seq<nat>, j: nat, x: nat)
    requires Linked(lk, s) && j < |s| && x !in s
    ensures Linked(LinkAfter(lk, x, s[j]), s[..j + 1] + [x] + s[j + 1..])
    ensures forall y :: y !in s && y != x ==> At(LinkAfter(lk, x, s[j]), y) == At(lk, y)
  {
    var m, t := LinkAfter(lk, x, s[j]), s[..j + 1] + [x] + s[j + 1..];
    assert At(lk, s[j]) == Expected(s, j);
    assert j + 1 < |s| ==> s[j + 1] != s[j];
    DistinctInsert(s, j + 1, x);
    forall y | y !in s && y != x ensures At(m, y) == At(lk, y) {
      LinkAfterAt(lk, x, s[j], y);
    }
    forall k | 0 <= k < |t| ensures At(m, t[k]) == Expected(t, k) {
      LinkAfterAt(lk, x, s[j], t[k]);
      if k <= j {
        assert t[k] == s[k] && At(lk, s[k]) == Expected(s, k);
        assert j + 1 < |s| ==> s[k] != s[j + 1];
      } else if k > j + 1 {
        assert t[k] == s[k - 1] && At(lk, s[k - 1]) == Expected(s, k - 1);
        assert s[k - 1] != s[j];
      }
    }
  }

  /** Pushing a new element at the head of a list makes it the new head. */
  lemma PushFrontLinked(lk: LinkMap, s: seq<nat>, x: nat)
    requires Linked(lk, s) && x !in s
    ensures Linked(PushFront(lk, x, Head(s)), [x] + s)
    ensures forall y :: y !in s && y != x ==> At(PushFront(lk, x, Head(s)), y) == At(lk, y)
  {
    if s == [] {
      assert Expected([x], 0) == Loose;
    } else {
      LinkBeforeLinked(lk, s, 0, x);
      assert s[..0] + [x] + s[0..] == [x] + s;
    }
  }

  /** A table entry read with a default: a missing key counts as zero. */
  function Count<K>(m: map<K, nat>, k: K): nat
  {
    if k in m then m[k] else 0
  }

  /** The list filed under `k`; a missing key is the empty list. */
  function Chain<K>(m: map<K, seq<nat>>, k: K): seq<nat>
  {
    if k in m then m[k] else []
  }

  /** `x` is on none of the lists. */
  ghost predicate Outside<K>(lists: map<K, seq<nat>>, x: nat)
  {
    forall k :: k in lists ==> x !in lists[k]
  }

  /** A family of lists threaded through one link map (one per layer, one per type),
      each non-empty and well linked. */
  ghost predicate Family<K>(lk: LinkMap, lists: map<K, seq<nat>>)
  {
    forall k :: k in lists ==> lists[k] != [] && Linked(lk, lists[k])
  }

  /** No element is on two lists of the family. */
  ghost predicate Disjoint<K>(lists: map<K, seq<nat>>)
  {
    forall k1, k2, x :: k1 in lists && k2 in lists && x in lists[k1] && x in lists[k2] ==> k1 == k2
  }

  /** The family after `x` is pushed at the head of the list under `key`. */
  function Pushed<K>(lists: map<K, seq<nat>>, key: K, x: nat): map<K, seq<nat>>
  {
    lists[key := [x] + Chain(lists, key)]
  }

  /** The family after `x` leaves the list under `key`; an emptied list is dropped. */
  function Dropped<K>(lists: map<K, seq<nat>>, key: K, x: nat): map<K, seq<nat>>
    requires key in lists && x in lists[key]
  {
    var s := lists[key];
    if |s| == 1 then lists - {key} else lists[key := Cut(s, IndexOf(s, x))]
  }

  /** Pushing a new element at the head of one list keeps the family well formed. */
  lemma FamilyPush<K>(lk: LinkMap, lists: map<K, seq<nat>>, key: K, x: nat)
    requires Family(lk, lists) && Disjoint(lists) && Outside(lists, x)
    ensures Family(PushFront(lk, x, Head(Chain(lists, key))), Pushed(lists, key, x))
  {
    var s := Chain(lists, key);
    var m, r := PushFront(lk, x, Head(s)), Pushed(lists, key, x);
    PushFrontLinked(lk, s, x);
    forall k | k in r ensures r[k] != [] && Linked(m, r[k]) {
      if k != key {
        forall j | 0 <= j < |r[k]| ensures At(m, r[k][j]) == At(lk, r[k][j]) {
          assert r[k][j] in lists[k];
          if key in lists { assert r[k][j] !in lists[key]; }
        }
        LinkedFrame(lk, m, r[k]);
      }
    }
  }

  /** Unlinking an element keeps the family well formed. */
  lemma FamilyDrop<K>(lk: LinkMap, lists: map<K, seq<nat>>, key: K, x: nat)
    requires Family(lk, lists) && Disjoint(lists) && key in lists && x in lists[key]
    ensures Family(Unlink(lk, x), Dropped(lists, key, x))
  {
    var s := lists[key];
    var i := IndexOf(s, x) as nat;
    var m, r := Unlink(lk, x), Dropped(lists, key, x);
    UnlinkLinked(lk, s, i);
    forall k | k in r ensures r[k] != [] && Linked(m, r[k]) {
      if k != key {
        forall j | 0 <= j < |r[k]| ensures At(m, r[k][j]) == At(lk, r[k][j]) {
          assert r[k][j] in lists[k];
          assert r[k][j] !in s;
        }
        LinkedFrame(lk, m, r[k]);
      }
    }
  }

  /** The members of the family after a push: the old ones and the pushed element. */
  lemma PushedMembers<K>(lists: map<K, seq<nat>>, key: K, x: nat)
    ensures forall k, y: nat :: k in Pushed(lists, key, x) && y in Pushed(lists, key, x)[k] <==>
              (k in lists && y in lists[k]) || (k == key && y == x)
  {
    forall k, y: nat ensures k in Pushed(lists, key, x) && y in Pushed(lists, key, x)[k] <==>
                        (k in lists && y in lists[k]) || (k == key && y == x) {
      if k == key {
        assert Pushed(lists, key, x)[k] == [x] + Chain(lists, key);
        assert y in [x] + Chain(lists, key) <==> y == x || y in Chain(lists, key);
      } else {
        assert k in Pushed(lists, key, x) <==> k in lists;
      }
    }
  }

  /** The members of the family after a drop: the old ones but the dropped element
      from its own list. */
  lemma DroppedMembers<K>(lists: map<K, seq<nat>>, key: K, x: nat)
    requires key in lists && x in lists[key] && Distinct(lists[key])
    ensures forall k, y: nat :: k in Dropped(lists, key, x) && y in Dropped(lists, key, x)[k] <==>
              k in lists && y in lists[k] && (k != key || y != x)
  {
    var s := lists[key];
    var i := IndexOf(s, x) as nat;
    var c := Cut(s, i);
    DistinctCut(s, i);
    assert s[i] == x;
    forall y: nat | y in c ensures y in s {
      var j :| 0 <= j < |c| && c[j] == y;
      assert y == s[if j < i then j else j + 1];
    }
    forall k, y: nat ensures k in Dropped(lists, key, x) && y in Dropped(lists, key, x)[k] <==>
                        k in lists && y in lists[k] && (k != key || y != x) {
      if k == key {
        if |s| == 1 {
          assert s == [x];
          assert k !in Dropped(lists, key, x);
        } else {
          assert Dropped(lists, key, x)[k] == c;
          assert y in c <==> y in s && y != x;
        }
      } else {
        assert k in Dropped(lists, key, x) <==> k in lists;
        assert k in lists ==> Dropped(lists, key, x)[k] == lists[k];
      }
    }
  }

  /** A family whose lists are threaded through `lk` with none sharing an element. */
  lemma FamilyDistinct<K>(lk: LinkMap, lists: map<K, seq<nat>>, key: K)
    requires Family(lk, lists) && key in lists
    ensures Distinct(lists[key])
  {
  }

  /** Pulling the element at index `i` out of a linked list and linking it back in front
      of the element at index `j` of what is left yields that rearrangement, touching
      no entity outside the list. */
  lemma MovedBefore(lk: LinkMap, s: seq<nat>, i: nat, j: nat)
    requires Linked(lk, s) && i < |s| && j < |s| - 1
    ensures var c := Cut(s, i);
            var t := c[..j] + [s[i]] + c[j..];
            var m := LinkBefore(Unlink(lk, s[i]), s[i], c[j]);
            Linked(m, t) && |t| == |s| && (forall y :: y in t ==> y in s) &&
            (forall y :: y !in s ==> At(m, y) == At(lk, y))
  {
    var x, c := s[i], Cut(s, i);
    var u := Unlink(lk, x);
    UnlinkLinked(lk, s, i);
    DistinctCut(s, i);
    LinkBeforeLinked(u, c, j, x);
    var t := c[..j] + [x] + c[j..];
    forall y | y in t ensures y in s {
      if y != x {
        assert y in c[..j] || y in c[j..];
      }
    }
  }

  /** Pulling the element at index `i` out of a linked list and linking it back behind
      the element at index `j` of what is left yields that rearrangement, touching no
      entity outside the list. */
  lemma MovedAfter(lk: LinkMap, s: seq<nat>, i: nat, j: nat)
    requires Linked(lk, s) && i < |s| && j < |s| - 1
    ensures var c := Cut(s, i);
            var t := c[..j + 1] + [s[i]] + c[j + 1..];
            var m := LinkAfter(Unlink(lk, s[i]), s[i], c[j]);
            Linked(m, t) && |t| == |s| && (forall y :: y in t ==> y in s) &&
            (forall y :: y !in s ==> At(m, y) == At(lk, y))
  {
    var x, c := s[i], Cut(s, i);
    var u := Unlink(lk, x);
    UnlinkLinked(lk, s, i);
    DistinctCut(s, i);
    LinkAfterLinked(u, c, j, x);
    var t := c[..j + 1] + [x] + c[j + 1..];
    forall y | y in t ensures y in s {
      if y != x {
        assert y in c[..j + 1] || y in c[j + 1..];
      }
    }
  }

  /** After an unlink, only the unlinked element's list neighbours can hold links they
      did not hold before, and the unlinked element holds none. */
  lemma UnlinkTouches(lk: LinkMap, s: seq<nat>, x: nat)
    requires Linked(lk, s) && x in s
    ensures At(Unlink(lk, x), x) == Loose
    ensures forall y :: At(Unlink(lk, x), y) != Loose ==> y != x && (y in s || At(lk, y) != Loose)
  {
    UnlinkLinked(lk, s, IndexOf(s, x) as nat);
  }

  /** After a push, only the pushed element and the list's own elements can hold links
      they did not hold before. */
  lemma PushTouches(lk: LinkMap, s: seq<nat>, x: nat)
    requires Linked(lk, s) && x !in s
    ensures forall y :: At(PushFront(lk, x, Head(s)), y) != Loose ==> y == x || y in s || At(lk, y) != Loose
  {
    PushFrontLinked(lk, s, x);
  }
}
