/** Increasing chains of signal ids, and which of their steps skip an id they should have held. */
module IdChains {

  ghost predicate Sorted(s: seq<nat>) {
    forall i, j | 0 <= i < j < |s| :: s[i] < s[j]
  }

  /** An id of d lies strictly between the two. */
  predicate Skips(d: set<nat>, lo: nat, hi: nat) {
    exists id <- d :: lo < id < hi
  }

  function Last(origin: nat, a: seq<nat>): nat {
    if a == [] then origin else a[|a| - 1]
  }

  function Prev(origin: nat, a: seq<nat>, i: nat): nat
    requires i < |a|
  {
    if i == 0 then origin else a[i - 1]
  }

  ghost predicate LinkOk(d: set<nat>, leaps: set<nat>, lo: nat, id: nat) {
    lo < id && (id in leaps <==> Skips(d, lo, id))
  }

  /** The leaps of a chain are exactly the ids that skip something after their predecessor. */
  ghost predicate ChainOk(d: set<nat>, origin: nat, a: seq<nat>, leaps: set<nat>) {
    && Sorted(a)
    && (forall i | 0 <= i < |a| :: a[i] in d)
    && (forall i {:trigger Prev(origin, a, i)} | 0 <= i < |a| :: LinkOk(d, leaps, Prev(origin, a, i), a[i]))
    && forall l <- leaps :: l in a
  }

  /** The chain is all of d between its origin and its end. */
  ghost predicate Whole(d: set<nat>, origin: nat, a: seq<nat>) {
    forall id: nat :: id in a <==> id in d && origin < id <= Last(origin, a)
  }

  /** What was passed over since the end of a chain does not matter to what the next id skips. */
  lemma SkipsFrom(d: set<nat>, lo: nat, mid: nat, id: nat)
    requires lo <= mid < id && !Skips(d, lo, mid + 1)
    ensures Skips(d, lo, id) <==> Skips(d, mid, id)
  {
    if Skips(d, lo, id) {
      var x :| x in d && lo < x < id;
      assert !(lo < x < mid + 1);
    }
    if Skips(d, mid, id) {
      var x :| x in d && mid < x < id;
      assert lo < x < id;
    }
  }

  /** Passing over an id that is not in d leaves nothing passed over. */
  lemma PassOver(d: set<nat>, lo: nat, mid: nat, id: nat)
    requires lo <= mid < id && id !in d && !Skips(d, lo, mid + 1) && !Skips(d, mid, id)
    ensures !Skips(d, lo, id + 1)
  {
    assert forall x <- d :: lo < x < id + 1 ==> lo < x < mid + 1 || mid < x < id;
  }

  lemma SortedAppend(a: seq<nat>, id: nat)
    requires Sorted(a) && (a == [] || a[|a| - 1] < id)
    ensures Sorted(a + [id]) && forall k | 0 <= k < |a| :: a[k] < id
  {
  }

  lemma LinksAppend(d: set<nat>, origin: nat, a: seq<nat>, leaps: set<nat>, id: nat, leaps': set<nat>, i: nat)
    requires ChainOk(d, origin, a, leaps) && (forall k | 0 <= k < |a| :: a[k] < id) && Last(origin, a) < id
    requires leaps' == if Skips(d, Last(origin, a), id) then leaps + {id} else leaps
    requires i <= |a|
    ensures LinkOk(d, leaps', Prev(origin, a + [id], i), (a + [id])[i])
  {
    hide Skips, Sorted;
    var z := a + [id];
    if i < |a| {
      assert z[i] == a[i] && Prev(origin, z, i) == Prev(origin, a, i);
      assert LinkOk(d, leaps, Prev(origin, a, i), a[i]);
    } else {
      assert Prev(origin, z, i) == Last(origin, a);
      assert id !in leaps;
    }
  }

  lemma ChainExtends(d: set<nat>, origin: nat, a: seq<nat>, leaps: set<nat>, id: nat, leaps': set<nat>)
    requires ChainOk(d, origin, a, leaps) && id in d && Last(origin, a) < id
    requires leaps' == if Skips(d, Last(origin, a), id) then leaps + {id} else leaps
    ensures ChainOk(d, origin, a + [id], leaps')
  {
    hide Skips, LinkOk, Sorted;
    SortedAppend(a, id);
    forall i: nat | i <= |a|
      ensures LinkOk(d, leaps', Prev(origin, a + [id], i), (a + [id])[i])
    {
      LinksAppend(d, origin, a, leaps, id, leaps', i);
    }
  }

  lemma ChainPrefix(d: set<nat>, origin: nat, a: seq<nat>, leaps: set<nat>, n: nat)
    requires ChainOk(d, origin, a, leaps) && n <= |a|
    ensures ChainOk(d, origin, a[..n], (set id | id in leaps && id in a[..n]))
  {
    hide Skips;
    var z, left := a[..n], set id | id in leaps && id in a[..n];
    forall i | 0 <= i < |z|
      ensures LinkOk(d, left, Prev(origin, z, i), z[i])
    {
      assert z[i] == a[i] && Prev(origin, z, i) == Prev(origin, a, i);
      assert LinkOk(d, leaps, Prev(origin, a, i), a[i]);
    }
  }

  /** A new id past the whole chain changes nothing about it. */
  lemma ChainGrows(d: set<nat>, origin: nat, a: seq<nat>, leaps: set<nat>, d': set<nat>)
    requires ChainOk(d, origin, a, leaps) && d <= d'
    requires forall id <- d' - d, k | 0 <= k < |a| :: a[k] < id
    ensures ChainOk(d', origin, a, leaps)
  {
    forall i | 0 <= i < |a|
      ensures LinkOk(d', leaps, Prev(origin, a, i), a[i])
    {
      assert LinkOk(d, leaps, Prev(origin, a, i), a[i]);
      SkipsGrow(d, d', Prev(origin, a, i), a[i]);
    }
  }

  lemma SkipsGrow(d: set<nat>, d': set<nat>, lo: nat, hi: nat)
    requires d <= d' && forall id <- d' - d :: hi <= id
    ensures Skips(d, lo, hi) <==> Skips(d', lo, hi)
  {
    if Skips(d', lo, hi) {
      var x :| x in d' && lo < x < hi;
      assert x !in d ==> x in d' - d;
    }
  }

  lemma WholeExtends(d: set<nat>, origin: nat, a: seq<nat>, id: nat)
    requires Whole(d, origin, a) && id in d && origin <= Last(origin, a) < id
    ensures Whole(d, origin, a + [id]) <==> !Skips(d, Last(origin, a), id)
  {
    var z := a + [id];
    if Skips(d, Last(origin, a), id) {
      var x :| x in d && Last(origin, a) < x < id;
      assert x !in z;
    }
  }

  /** A chain that starts with less than the whole stays less. */
  lemma NotWholeExtends(d: set<nat>, origin: nat, a: seq<nat>, id: nat)
    requires !Whole(d, origin, a) && (forall k | 0 <= k < |a| :: a[k] in d && origin < a[k] <= Last(origin, a))
    requires Last(origin, a) < id
    ensures !Whole(d, origin, a + [id])
  {
    var x: nat :| !(x in a <==> x in d && origin < x <= Last(origin, a));
    assert x !in a + [id];
  }

  lemma {:induction false} ChainIsWholeIff(d: set<nat>, origin: nat, a: seq<nat>, leaps: set<nat>)
    requires ChainOk(d, origin, a, leaps)
    ensures leaps == {} <==> Whole(d, origin, a)
    ensures origin <= Last(origin, a) && forall k | 0 <= k < |a| :: origin < a[k] <= Last(origin, a)
  {
    hide Skips, Sorted, Whole;
    if a != [] {
      var n := |a| - 1;
      var b, left := a[..n], set id | id in leaps && id in a[..n];
      ChainPrefix(d, origin, a, leaps, n);
      ChainIsWholeIff(d, origin, b, left);
      assert a == b + [a[n]] && Prev(origin, a, n) == Last(origin, b);
      assert LinkOk(d, leaps, Prev(origin, a, n), a[n]);
      LeapsSplit(a, leaps, n);
      assert forall k | 0 <= k < n :: a[k] == b[k];
      if Whole(d, origin, b) {
        WholeExtends(d, origin, b, a[n]);
      } else {
        NotWholeExtends(d, origin, b, a[n]);
      }
    } else {
      NothingIsWhole(d, origin);
    }
  }

  lemma NothingIsWhole(d: set<nat>, origin: nat)
    ensures Whole(d, origin, [])
  {
  }

  lemma LeapsSplit(a: seq<nat>, leaps: set<nat>, n: nat)
    requires |a| == n + 1 && forall l <- leaps :: l in a
    ensures leaps == {} <==> (set id | id in leaps && id in a[..n]) == {} && a[n] !in leaps
  {
    assert a == a[..n] + [a[n]];
  }
}
