// The three shapes of walk the World's queries make along a list: stop at the
// first entity a test accepts, collect every entity a test accepts, and keep the
// earliest entity of least distance. A test may fail (a null mask parent), and a
// failure ends the walk the way an exception would. Each walk is defined on the
// list's prefixes, which is how a loop sees it.
module Scans {
  import opened Common

  /** What one test decides for `x`: a fault ends the walk, acceptance ends it with `x`. */
  function Settle(x: nat, v: Result<bool>): (r: Result<Option<nat>>)
    ensures r == Ok(None) <==> v == Ok(false)
  {
    match v
    case Err(f) => Err(f)
    case Ok(b) => if b then Ok(Some(x)) else Ok(None)
  }

  /** The first entity of `s` the test accepts (Ok(None) if none does), or the fault of
      the first test that fails before any is accepted. */
  function Scan(s: seq<nat>, test: nat --> Result<bool>): Result<Option<nat>>
    requires forall k :: 0 <= k < |s| ==> test.requires(s[k])
    decreases |s|
  {
    if s == [] then Ok(None)
    else
      var p := Scan(s[..|s| - 1], test);
      if p != Ok(None) then p else Settle(s[|s| - 1], test(s[|s| - 1]))
  }

  /** The walk has nothing more to say once a prefix has decided it. */
  lemma {:induction false} ScanSettled(s: seq<nat>, test: nat --> Result<bool>, k: nat)
    requires forall j :: 0 <= j < |s| ==> test.requires(s[j])
    requires k <= |s| && Scan(s[..k], test) != Ok(None)
    ensures Scan(s, test) == Scan(s[..k], test)
    decreases |s| - k
  {
    if k < |s| {
      assert s[..|s| - 1][..k] == s[..k];
      ScanSettled(s[..|s| - 1], test, k);
    } else {
      assert s[..k] == s;
    }
  }

  /** One more entity examined after an undecided prefix. */
  lemma ScanStep(s: seq<nat>, test: nat --> Result<bool>, k: nat)
    requires forall j :: 0 <= j < |s| ==> test.requires(s[j])
    requires k < |s| && Scan(s[..k], test) == Ok(None)
    ensures Scan(s[..k + 1], test) == Settle(s[k], test(s[k]))
  {
    assert s[..k + 1][..k] == s[..k];
  }

  /** The scan decides nothing exactly when every test says no; otherwise the answer
      is that of the first test that does not say no, all earlier ones saying no. */
  lemma {:induction false} ScanFirst(s: seq<nat>, test: nat --> Result<bool>)
    requires forall k :: 0 <= k < |s| ==> test.requires(s[k])
    ensures Scan(s, test) == Ok(None) <==> forall k :: 0 <= k < |s| ==> test(s[k]) == Ok(false)
    ensures Scan(s, test) != Ok(None) ==>
              exists k :: 0 <= k < |s| && Scan(s, test) == Settle(s[k], test(s[k])) &&
                          forall j :: 0 <= j < k ==> test(s[j]) == Ok(false)
    decreases |s|
  {
    if s != [] {
      var n := |s| - 1;
      var p := s[..n];
      ScanFirst(p, test);
      assert forall k :: 0 <= k < n ==> p[k] == s[k];
      if Scan(p, test) != Ok(None) {
        var k :| 0 <= k < |p| && Scan(p, test) == Settle(p[k], test(p[k])) &&
                 forall j :: 0 <= j < k ==> test(p[j]) == Ok(false);
        assert Settle(s[k], test(s[k])) == Scan(s, test);
      } else {
        assert Scan(s, test) == Settle(s[n], test(s[n]));
      }
    }
  }

  /** What a scan returns: an entity of the list the test accepts, or a fault a test
      raised. */
  lemma ScanFound(s: seq<nat>, test: nat --> Result<bool>)
    requires forall k :: 0 <= k < |s| ==> test.requires(s[k])
    ensures Scan(s, test).Ok? && Scan(s, test).value.Some? ==>
              Scan(s, test).value.value in s && test(Scan(s, test).value.value) == Ok(true)
    ensures Scan(s, test).Err? ==> exists k :: 0 <= k < |s| && test(s[k]) == Err(Scan(s, test).fault)
  {
    ScanFirst(s, test);
  }

  /** The entities a collecting walk gathered, and the fault that cut it short, if any. */
  datatype Gathered = Gathered(items: seq<nat>, fault: Option<Fault>)

  /** Every entity of `s` the test accepts, in list order, up to the first failing
      test. */
  function Gather(s: seq<nat>, test: nat --> Result<bool>): (g: Gathered)
    requires forall k :: 0 <= k < |s| ==> test.requires(s[k])
    ensures |g.items| <= |s|
    decreases |s|
  {
    if s == [] then Gathered([], None)
    else
      var g := Gather(s[..|s| - 1], test);
      var x := s[|s| - 1];
      if g.fault.Some? then g
      else match test(x)
        case Err(f) => g.(fault := Some(f))
        case Ok(b) => if b then g.(items := g.items + [x]) else g
  }

  /** Once a prefix has failed, the rest of the list is not examined. */
  lemma {:induction false} GatherSettled(s: seq<nat>, test: nat --> Result<bool>, k: nat)
    requires forall j :: 0 <= j < |s| ==> test.requires(s[j])
    requires k <= |s| && Gather(s[..k], test).fault.Some?
    ensures Gather(s, test) == Gather(s[..k], test)
    decreases |s| - k
  {
    if k < |s| {
      assert s[..|s| - 1][..k] == s[..k];
      GatherSettled(s[..|s| - 1], test, k);
    } else {
      assert s[..k] == s;
    }
  }

  lemma GatherStep(s: seq<nat>, test: nat --> Result<bool>, k: nat)
    requires forall j :: 0 <= j < |s| ==> test.requires(s[j])
    requires k < |s|
    ensures var g := Gather(s[..k], test);
            Gather(s[..k + 1], test) ==
              if g.fault.Some? then g
              else match test(s[k])
                case Err(f) => g.(fault := Some(f))
                case Ok(b) => if b then g.(items := g.items + [s[k]]) else g
  {
    assert s[..k + 1][..k] == s[..k];
  }

  /** A walk that no test cut short gathered exactly the accepted entities; one that a
      test cut short gathered only accepted entities, and the fault is a test's. */
  lemma {:induction false} GatherMeaning(s: seq<nat>, test: nat --> Result<bool>)
    requires forall k :: 0 <= k < |s| ==> test.requires(s[k])
    ensures Gather(s, test).fault.None? <==> forall k :: 0 <= k < |s| ==> test(s[k]).Ok?
    ensures Gather(s, test).fault.None? ==>
              forall x :: x in Gather(s, test).items <==> x in s && test(x) == Ok(true)
    ensures forall x :: x in Gather(s, test).items ==> x in s && test(x) == Ok(true)
    ensures Gather(s, test).fault.Some? ==>
              exists k :: 0 <= k < |s| && test(s[k]) == Err(Gather(s, test).fault.value)
    decreases |s|
  {
    if s != [] {
      var n := |s| - 1;
      var p := s[..n];
      GatherMeaning(p, test);
      assert forall k :: 0 <= k < n ==> p[k] == s[k];
      assert s == p + [s[n]];
      var g := Gather(p, test);
      if g.fault.Some? {
        var k :| 0 <= k < |p| && test(p[k]) == Err(g.fault.value);
        assert test(s[k]) == Err(g.fault.value);
      }
    }
  }

  /** The earliest entity of `s` whose distance is least (None for an empty list): a
      later entity replaces the one kept only when strictly nearer. */
  function Nearest(s: seq<nat>, dist: nat --> int): (r: Option<nat>)
    requires forall k :: 0 <= k < |s| ==> dist.requires(s[k])
    ensures r.None? <==> s == []
    decreases |s|
  {
    if s == [] then None
    else
      var p := Nearest(s[..|s| - 1], dist);
      var x := s[|s| - 1];
      if p.None? || dist(x) < dist(p.value) then Some(x) else p
  }

  lemma NearestStep(s: seq<nat>, dist: nat --> int, k: nat)
    requires forall j :: 0 <= j < |s| ==> dist.requires(s[j])
    requires k < |s|
    ensures var p := Nearest(s[..k], dist);
            Nearest(s[..k + 1], dist) == if p.None? || dist(s[k]) < dist(p.value) then Some(s[k]) else p
  {
    assert s[..k + 1][..k] == s[..k];
  }

  /** The kept entity is on the list, no entity is nearer, and every entity before it
      is strictly farther. */
  lemma {:induction false} NearestMeaning(s: seq<nat>, dist: nat --> int)
    requires forall k :: 0 <= k < |s| ==> dist.requires(s[k])
    requires s != []
    ensures exists i :: 0 <= i < |s| && Nearest(s, dist) == Some(s[i]) &&
              (forall j :: 0 <= j < |s| ==> dist(s[i]) <= dist(s[j])) &&
              (forall j :: 0 <= j < i ==> dist(s[i]) < dist(s[j]))
    decreases |s|
  {
    var n := |s| - 1;
    var p := s[..n];
    assert forall k :: 0 <= k < n ==> p[k] == s[k];
    if n == 0 {
      assert Nearest(s, dist) == Some(s[0]);
    } else {
      NearestMeaning(p, dist);
      var i :| 0 <= i < |p| && Nearest(p, dist) == Some(p[i]) &&
               (forall j :: 0 <= j < |p| ==> dist(p[i]) <= dist(p[j])) &&
               (forall j :: 0 <= j < i ==> dist(p[i]) < dist(p[j]));
      if dist(s[n]) < dist(s[i]) {
        assert Nearest(s, dist) == Some(s[n]);
      } else {
        assert Nearest(s, dist) == Some(s[i]);
      }
    }
  }
}
