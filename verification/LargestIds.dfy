/** The list of deployment ids that the agent remembers: the largest ones. */
module LargestIds {

  predicate IsLeast(x: nat, ids: set<nat>) {
    x in ids && forall y :: y in ids ==> x <= y
  }

  lemma {:induction false} HasLeast(ids: set<nat>)
    requires ids != {}
    ensures exists x :: IsLeast(x, ids)
  {
    var x :| x in ids;
    if ids == {x} {
      assert IsLeast(x, ids);
    } else {
      HasLeast(ids - {x});
      var y :| IsLeast(y, ids - {x});
      forall z | z in ids
        ensures z == x || y <= z
      {
        assert z == x || z in ids - {x};
      }
      assert IsLeast(if x < y then x else y, ids);
    }
  }

  predicate Ascending(s: seq<nat>) {
    forall i, j :: 0 <= i < j < |s| ==> s[i] < s[j]
  }

  /** `sorted(ids, key=int)`. */
  function Sorted(ids: set<nat>): seq<nat>
    decreases |ids|
  {
    if ids == {} then []
    else
      HasLeast(ids);
      var x :| IsLeast(x, ids);
      [x] + Sorted(ids - {x})
  }

  lemma Prepend(x: nat, rest: seq<nat>)
    requires Ascending(rest) && forall y :: y in Elements(rest) ==> x < y
    ensures Ascending([x] + rest) && Elements([x] + rest) == {x} + Elements(rest)
  {
    forall i | 0 <= i < |rest|
      ensures x < rest[i]
    {
      assert rest[i] in Elements(rest);
    }
  }

  lemma {:induction false} SortedIs(ids: set<nat>)
    ensures Ascending(Sorted(ids)) && |Sorted(ids)| == |ids| && Elements(Sorted(ids)) == ids
    decreases |ids|
  {
    if ids != {} {
      HasLeast(ids);
      var x :| IsLeast(x, ids) && Sorted(ids) == [x] + Sorted(ids - {x});
      SortedIs(ids - {x});
      Prepend(x, Sorted(ids - {x}));
    }
  }

  function Elements(s: seq<nat>): set<nat> {
    set x | x in s
  }

  /** `sorted(ids, key=int)[-k:]`. */
  function Largest(ids: set<nat>, k: nat): seq<nat> {
    var all := Sorted(ids);
    if |all| <= k then all else all[|all| - k..]
  }

  lemma {:induction false} Counted(s: seq<nat>)
    requires Ascending(s)
    ensures |Elements(s)| == |s|
  {
    if s != [] {
      var last := |s| - 1;
      Counted(s[..last]);
      assert s[last] !in s[..last];
      assert Elements(s) == Elements(s[..last]) + {s[last]};
    }
  }

  lemma {:induction false} SameElements(s: seq<nat>, t: seq<nat>)
    requires Ascending(s) && Ascending(t) && Elements(s) == Elements(t)
    ensures s == t
  {
    Counted(s);
    Counted(t);
    if s != [] {
      assert s[0] in Elements(t) && t[0] in Elements(s);
      assert s[0] == t[0];
      assert Elements(s[1..]) == Elements(s) - {s[0]};
      assert Elements(t[1..]) == Elements(t) - {t[0]};
      SameElements(s[1..], t[1..]);
      assert s == [s[0]] + s[1..] && t == [t[0]] + t[1..];
    }
  }

  /** `top` holds elements of `ids` that exceed all others. */
  predicate IsTop(top: set<nat>, ids: set<nat>) {
    top <= ids && forall x, y :: x in ids && x !in top && y in top ==> x < y
  }

  lemma Size(a: set<nat>, b: set<nat>)
    requires a <= b
    ensures |a| <= |b| && (|a| == |b| ==> a == b)
  {
    assert |b - a| == |b| - |a|;
    assert b == a + (b - a);
  }

  /** A set that is not smaller and not the same has something of its own. */
  lemma Own(a: set<nat>, b: set<nat>)
    requires |a| >= |b|
    ensures a == b || exists x :: x in a && x !in b
  {
    if a <= b {
      Size(a, b);
    }
  }

  lemma TopIsUnique(a: set<nat>, b: set<nat>, ids: set<nat>)
    requires IsTop(a, ids) && IsTop(b, ids) && |a| == |b|
    ensures a == b
  {
    Own(a, b);
    Own(b, a);
  }

  lemma TailIsTop(all: seq<nat>, cut: nat)
    requires Ascending(all) && cut <= |all|
    ensures Ascending(all[cut..]) && IsTop(Elements(all[cut..]), Elements(all))
  {
    var s := all[cut..];
    forall x, y | x in all && x !in s && y in s
      ensures x < y
    {
      assert all == all[..cut] + s;
      assert x in all[..cut];
      var j :| 0 <= j < |s| && s[j] == y;
      assert all[cut + j] == y;
    }
  }

  /** The list is ascending, holds at most `k` of the ids, and no other id is
      larger than one of these. */
  lemma LargestIsTop(ids: set<nat>, k: nat)
    ensures Ascending(Largest(ids, k)) && IsTop(Elements(Largest(ids, k)), ids)
    ensures |Elements(Largest(ids, k))| == |Largest(ids, k)| == if |ids| < k then |ids| else k
  {
    var all := Sorted(ids);
    SortedIs(ids);
    TailIsTop(all, if |all| <= k then 0 else |all| - k);
    Counted(Largest(ids, k));
    assert all[0..] == all;
  }

  lemma TopOfUnion(ids: set<nat>, kept: set<nat>, more: set<nat>, top: set<nat>)
    requires IsTop(kept, ids) && IsTop(top, kept + more)
    requires |top| <= |kept| || kept == ids
    ensures IsTop(top, ids + more)
  {
    forall x, y | x in ids + more && x !in top && y in top
      ensures x < y
    {
      if |top| <= |kept| {
        Own(kept, top);
      }
    }
  }

  /** Nothing is lost by remembering only the largest: adding to them, and
      keeping the largest again, gives the largest of all. */
  lemma LargestOfUnion(ids: set<nat>, more: set<nat>, k: nat)
    ensures Largest(Elements(Largest(ids, k)) + more, k) == Largest(ids + more, k)
  {
    var kept := Elements(Largest(ids, k));
    var s, t := Largest(kept + more, k), Largest(ids + more, k);
    LargestIsTop(ids, k);
    LargestIsTop(kept + more, k);
    LargestIsTop(ids + more, k);
    Size(kept, ids);
    Size(kept, kept + more);
    Size(ids, ids + more);
    TopOfUnion(ids, kept, more, Elements(s));
    TopIsUnique(Elements(s), Elements(t), ids + more);
    SameElements(s, t);
  }
}
