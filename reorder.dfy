/**
  `reorderFromDom` as an operation on a list of task ids (the order of the cards after a drop):
  the first loop takes, for each listed id, the first task with that id; the second loop appends
  every task not taken yet, in its old order. A task is identified by its position in the old
  list, which is what the object identity of `newOrder.includes(t)` tracks.
 */
module Reorder {
  import opened Seqs
  import opened Tasks

  /** `state.tasks.find(tt => tt.id === id)`, as a position (-1: none). */
  function IndexOfId(tasks: seq<Task>, id: int): int {
    FirstIndex((t: Task) => t.id == id, tasks)
  }

  /** The listed ids that name some task, in the listed order. */
  function KnownIds(tasks: seq<Task>, ids: seq<int>): (r: seq<int>)
  {
    Filter((id: int) => IndexOfId(tasks, id) >= 0, ids)
  }

  /** Positions taken by the first loop. */
  function Picked(tasks: seq<Task>, ids: seq<int>): (r: seq<nat>)
    ensures |r| == |KnownIds(tasks, ids)|
    ensures forall k :: 0 <= k < |r| ==> r[k] < |tasks| && tasks[r[k]].id == KnownIds(tasks, ids)[k]
  {
    var known := KnownIds(tasks, ids);
    seq(|known|, k requires 0 <= k < |known| => IndexOfId(tasks, known[k]))
  }

  /** Positions below `n` that the second loop appends: those not taken, in increasing order. */
  function Unpicked(picked: seq<nat>, n: nat): (r: seq<nat>)
    ensures forall k :: 0 <= k < |r| ==> r[k] < n && r[k] !in picked
  {
    if n == 0 then []
    else Unpicked(picked, n - 1) + (if n - 1 in picked then [] else [n - 1])
  }

  /** The second loop appends every position not taken, in increasing order. */
  lemma {:induction false} UnpickedSpec(picked: seq<nat>, n: nat)
    ensures forall j :: 0 <= j < n && j !in picked ==> j in Unpicked(picked, n)
    ensures forall a, b :: 0 <= a < b < |Unpicked(picked, n)| ==> Unpicked(picked, n)[a] < Unpicked(picked, n)[b]
  {
    if n > 0 {
      UnpickedSpec(picked, n - 1);
    }
  }

  /** The new order, as old positions. */
  function Order(tasks: seq<Task>, ids: seq<int>): seq<nat> {
    var p := Picked(tasks, ids);
    p + Unpicked(p, |tasks|)
  }

  /** The tasks at the given positions. */
  function At(tasks: seq<Task>, order: seq<nat>): (r: seq<Task>)
    requires forall k :: 0 <= k < |order| ==> order[k] < |tasks|
    ensures |r| == |order|
  {
    seq(|order|, k requires 0 <= k < |order| => tasks[order[k]])
  }

  /** The task list after a drop that left the cards in the order `ids`. */
  function Reordered(tasks: seq<Task>, ids: seq<int>): seq<Task> {
    var p := Picked(tasks, ids);
    At(tasks, p + Unpicked(p, |tasks|))
  }

  /** `order` lists every position below `n` exactly once. */
  predicate IsPermutation(order: seq<nat>, n: nat) {
    |order| == n && Distinct(order) && (forall k :: 0 <= k < |order| ==> order[k] < n)
    && (forall j :: 0 <= j < n ==> j in order)
  }

  /** The positions `0 .. n - 1`. */
  function Range(n: nat): (r: set<int>)
    ensures forall j :: j in r <==> 0 <= j < n
    ensures |r| == n
  {
    if n == 0 then {} else Range(n - 1) + {n - 1}
  }

  function Elements(s: seq<nat>): set<int> {
    set x | x in s
  }

  lemma {:induction false} DistinctCard(s: seq<nat>)
    requires Distinct(s)
    ensures |Elements(s)| == |s|
  {
    if s != [] {
      DistinctCard(s[1..]);
      assert Elements(s) == {s[0]} + Elements(s[1..]);
      assert s[0] !in Elements(s[1..]);
    }
  }

  /** A repetition-free list of positions below `n` that names each of them has length `n`. */
  lemma CoversRange(s: seq<nat>, n: nat)
    requires Distinct(s) && (forall k :: 0 <= k < |s| ==> s[k] < n) && (forall j :: 0 <= j < n ==> j in s)
    ensures |s| == n
  {
    DistinctCard(s);
    assert Elements(s) == Range(n);
  }

  /** With distinct ids, the first loop never takes a position twice. */
  lemma PickedDistinct(tasks: seq<Task>, ids: seq<int>)
    requires Distinct(ids)
    ensures Distinct(Picked(tasks, ids))
  {
    var known := KnownIds(tasks, ids);
    var p := Picked(tasks, ids);
    KnownIdsDistinct(ids, known, (id: int) => IndexOfId(tasks, id) >= 0);
    forall i, j | 0 <= i < j < |p| ensures p[i] != p[j] {
      assert tasks[p[i]].id == known[i] && tasks[p[j]].id == known[j];
    }
  }

  lemma {:induction false} KnownIdsDistinct(ids: seq<int>, known: seq<int>, keep: int -> bool)
    requires Distinct(ids) && known == Filter(keep, ids)
    ensures Distinct(known)
  {
    if ids != [] {
      KnownIdsDistinct(ids[1..], Filter(keep, ids[1..]), keep);
      assert ids[0] !in ids[1..];
    }
  }

  /** The first loop's positions and the second loop's never overlap, and together name every
      position. */
  lemma OrderDistinct(tasks: seq<Task>, ids: seq<int>)
    requires Distinct(ids)
    ensures Distinct(Order(tasks, ids))
  {
    var p := Picked(tasks, ids);
    var u := Unpicked(p, |tasks|);
    PickedDistinct(tasks, ids);
    UnpickedSpec(p, |tasks|);
    assert Distinct(u);
    DisjointConcat(p, u);
  }

  lemma DisjointConcat(a: seq<nat>, b: seq<nat>)
    requires Distinct(a) && Distinct(b)
    requires forall k :: 0 <= k < |b| ==> b[k] !in a
    ensures Distinct(a + b)
  {
    var o := a + b;
    forall i, j | 0 <= i < j < |o| ensures o[i] != o[j] {
      if i < |a| <= j {
        assert o[j] == b[j - |a|] && o[i] == a[i];
      } else if i >= |a| {
        assert o[i] == b[i - |a|] && o[j] == b[j - |a|];
      }
    }
  }

  /** With distinct ids the new order is a permutation of the old one: no task is lost or
      duplicated. The listed ids that name tasks come first, in the listed order; after them come
      all other tasks in their previous relative order. */
  lemma ReorderIsPermutation(tasks: seq<Task>, ids: seq<int>)
    requires Distinct(ids)
    ensures IsPermutation(Order(tasks, ids), |tasks|)
    ensures Reordered(tasks, ids) == At(tasks, Order(tasks, ids))
    ensures var known := KnownIds(tasks, ids);
            forall k :: 0 <= k < |known| ==> Reordered(tasks, ids)[k].id == known[k]
    ensures var p := Picked(tasks, ids); var u := Unpicked(p, |tasks|);
            forall a, b :: 0 <= a < b < |u| ==> u[a] < u[b] && Order(tasks, ids)[|p| + a] == u[a]
  {
    var p := Picked(tasks, ids);
    var u := Unpicked(p, |tasks|);
    var o := Order(tasks, ids);
    OrderDistinct(tasks, ids);
    UnpickedSpec(p, |tasks|);
    forall j | 0 <= j < |tasks| ensures j in o {
      if j !in p {
        assert j in u;
      }
    }
    CoversRange(o, |tasks|);
  }

  /** Dropping with no cards listed keeps the list as it was. */
  lemma ReorderNothing(tasks: seq<Task>)
    ensures Reordered(tasks, []) == tasks
  {
    assert Picked(tasks, []) == [];
    UnpickedNothing(|tasks|);
  }

  /** With nothing taken, the second loop appends every position in order. */
  lemma {:induction false} UnpickedNothing(n: nat)
    ensures |Unpicked([], n)| == n && forall k :: 0 <= k < n ==> Unpicked([], n)[k] == k
  {
    if n > 0 {
      UnpickedNothing(n - 1);
      assert Unpicked([], n) == Unpicked([], n - 1) + [n - 1];
    }
  }
}
