// Shared vocabulary: optional references, results carrying the exceptions the
// engine throws, and small sequence helpers used by several modules.
module Common {

  /** A possibly-null reference. */
  datatype Option<T> = None | Some(value: T)

  /** The exceptions the modelled code can raise. */
  datatype Fault =
    | NullReference      // a member access through a null reference
    | NotOwner           // Tweener.removeTween on a tween it does not own
    | UsageError         // a "Usage Error" thrown by the World queries
    | IndexOutOfRange    // a list index past the end
    | KeyNotFound        // a Dictionary read of a key it does not hold

  datatype Result<T> = Ok(value: T) | Err(fault: Fault)

  /** No element occurs twice. */
  ghost predicate Distinct<T>(s: seq<T>)
  {
    forall i, j :: 0 <= i < j < |s| ==> s[i] != s[j]
  }

  /** `s` without the element at index `i`. */
  function Cut<T>(s: seq<T>, i: nat): (r: seq<T>)
    requires i < |s|
    ensures |r| == |s| - 1
    ensures forall k :: 0 <= k < i ==> r[k] == s[k]
    ensures forall k :: i <= k < |r| ==> r[k] == s[k + 1]
  {
    s[..i] + s[i + 1..]
  }

  /** The position of the first occurrence of `x` in `s` (List.IndexOf), or -1. */
  function IndexOf<T(==)>(s: seq<T>, x: T): (r: int)
    ensures -1 <= r < |s|
    ensures r == -1 <==> x !in s
    ensures r >= 0 ==> s[r] == x && forall k :: 0 <= k < r ==> s[k] != x
  {
    if |s| == 0 then -1
    else if s[0] == x then 0
    else var j := IndexOf(s[1..], x); if j == -1 then -1 else j + 1
  }

  lemma DistinctCut<T>(s: seq<T>, i: nat)
    requires Distinct(s) && i < |s|
    ensures Distinct(Cut(s, i))
    ensures s[i] !in Cut(s, i)
    ensures forall x :: x in s && x != s[i] ==> x in Cut(s, i)
    ensures forall x :: x in Cut(s, i) ==> x in s
  {
    var r := Cut(s, i);
    forall x | x in r ensures x in s {
      var k :| 0 <= k < |r| && r[k] == x;
      if k < i { assert s[k] == x; } else { assert s[k + 1] == x; }
    }
    forall x | x in s && x != s[i] ensures x in r {
      var k :| 0 <= k < |s| && s[k] == x;
      if k < i { assert r[k] == x; } else { assert r[k - 1] == x; }
    }
  }

  lemma DistinctIndexOf<T>(s: seq<T>, k: nat)
    requires Distinct(s) && k < |s|
    ensures IndexOf(s, s[k]) == k
  {
  }

  lemma AppendAssoc<T>(a: seq<T>, b: seq<T>, c: seq<T>)
    ensures a + (b + c) == (a + b) + c
  {
  }

  lemma AppendEmpty<T>(a: seq<T>)
    ensures a + [] == a
  {
  }

  lemma TakeAll<T>(a: seq<T>)
    ensures a[..|a|] == a
  {
  }

  /** A subset has no more elements than its superset. */
  lemma {:induction false} SubsetCard<T>(a: set<T>, b: set<T>)
    requires a <= b
    ensures |a| <= |b|
    decreases |a|
  {
    if a != {} {
      var x :| x in a;
      SubsetCard(a - {x}, b - {x});
    }
  }
}
