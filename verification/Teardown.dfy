/** `state_destroy`: the mark-and-sweep that frees a state machine, however its states refer to one
    another. Marks are taken to stay readable after a state is freed. */
module Teardown {

  /** States are numbered; `edges[s]` lists the targets of the transitions of `s`. The source leads from
      any state only to states of the same machine. */
  ghost predicate Graph(edges: seq<seq<nat>>) {
    forall s, i :: 0 <= s < |edges| && 0 <= i < |edges[s]| ==> edges[s][i] < |edges|
  }

  ghost predicate Steps(edges: seq<seq<nat>>, s: nat, t: nat, k: nat)
    decreases k
  {
    s < |edges| && if k == 0 then s == t else exists n: nat :: n in edges[s] && Steps(edges, n, t, k - 1)
  }

  ghost predicate Reachable(edges: seq<seq<nat>>, s: nat, t: nat) {
    exists k: nat :: Steps(edges, s, t, k)
  }

  /** Every transition out of a state of `from` ends in `into`. */
  ghost predicate Closed(edges: seq<seq<nat>>, from: set<nat>, into: set<nat>) {
    forall s, n :: s in from && s < |edges| && n in edges[s] ==> n in into
  }

  /** The transitions of the states of `ss`, each named by its state and its place. */
  ghost function Transitions(edges: seq<seq<nat>>, ss: set<nat>): set<(nat, nat)> {
    set s, i | s in ss && s < |edges| && 0 <= i < |edges[s]| :: (s, i)
  }

  lemma {:induction false} ClosedHoldsReachable(edges: seq<seq<nat>>, ss: set<nat>, s: nat, t: nat, k: nat)
    requires Closed(edges, ss, ss) && s in ss && Steps(edges, s, t, k)
    ensures t in ss
    decreases k
  {
    if k > 0 {
      var n :| n in edges[s] && Steps(edges, n, t, k - 1);
      ClosedHoldsReachable(edges, ss, n, t, k - 1);
    }
  }

  lemma ReachOneMore(edges: seq<seq<nat>>, s: nat, n: nat, t: nat)
    requires s < |edges| && n in edges[s] && Reachable(edges, n, t)
    ensures Reachable(edges, s, t)
  {
    var k: nat :| Steps(edges, n, t, k);
    assert n in edges[s] && Steps(edges, n, t, (k + 1) - 1);
    assert Steps(edges, s, t, k + 1);
  }

  /** The numbers below `n`. */
  function Below(n: nat): (r: set<nat>)
    ensures forall m: nat :: m in r <==> m < n
  {
    if n == 0 then {} else Below(n - 1) + {n - 1}
  }

  /** What has been freed so far: states by number, transitions by their state and their place. */
  datatype Heap = Heap(states: set<nat>, transitions: set<(nat, nat)>)

  /** Between `was` and `now` the states of `ss` and the transitions of `ts` were freed; all of `ts` is
      reachable from `s`, and its targets are marked. */
  ghost predicate Freed(edges: seq<seq<nat>>, s: nat, ss: set<nat>, ts: set<nat>, marked: set<nat>, was: Heap,
                        now: Heap) {
    && now.states == was.states + ss
    && now.transitions == was.transitions + Transitions(edges, ts)
    && Closed(edges, ts, marked)
    && forall n :: n in ts ==> Reachable(edges, s, n)
  }

  /** What a queued state adds to what has been freed. */
  lemma FreedMore(edges: seq<seq<nat>>, s: nat, q: nat, swept: set<nat>, more: set<nat>, marked: set<nat>,
                  marked': set<nat>,
                  was: Heap, mid: Heap, now: Heap)
    requires s < |edges| && q in edges[s] && marked <= marked'
    requires Freed(edges, s, swept, {s} + swept, marked, was, mid)
    requires Freed(edges, q, more, more, marked', mid, now)
    ensures Freed(edges, s, swept + more, {s} + (swept + more), marked', was, now)
  {
    assert Transitions(edges, {s} + swept) + Transitions(edges, more) == Transitions(edges, {s} + (swept + more));
    forall n | n in more
      ensures Reachable(edges, s, n)
    {
      ReachOneMore(edges, s, q, n);
    }
  }

  /** Nothing of an unmarked state, nor of any state of `live`, has been freed. */
  ghost predicate Untouched(live: set<nat>, marked: set<nat>, heap: Heap) {
    && heap.states <= marked - live
    && forall p :: p in heap.transitions ==> p.0 in marked - live
  }

  class StateMachine {
    const edges: seq<seq<nat>>
    /** The states whose mark is set. */
    var marked: set<nat>
    ghost var heap: Heap

    constructor (edges: seq<seq<nat>>)
      ensures this.edges == edges && marked == {} && heap == Heap({}, {})
    {
      this.edges := edges;
      marked := {};
      heap := Heap({}, {});
    }

    /** Freeing a state: never a second time. */
    ghost method FreeState(s: nat)
      requires s !in heap.states
      modifies `heap
      ensures heap == old(heap).(states := old(heap).states + {s})
    {
      heap := heap.(states := heap.states + {s});
    }

    /** Freeing a transition: never a second time. */
    ghost method FreeTransition(s: nat, i: nat)
      requires (s, i) !in heap.transitions
      modifies `heap
      ensures heap == old(heap).(transitions := old(heap).transitions + {(s, i)})
    {
      heap := heap.(transitions := heap.transitions + {(s, i)});
    }

    /** The first half: queue the targets not yet marked, and free the transitions. */
    method MarkTargets(s: nat) returns (garbage: seq<nat>)
      requires Graph(edges) && s < |edges|
      requires forall i: nat :: (s, i) !in heap.transitions
      modifies `marked, `heap
      ensures marked == old(marked) + (set n | n in garbage)
      ensures forall n :: n in garbage ==> n in edges[s] && n !in old(marked)
      ensures forall i, j :: 0 <= i < j < |garbage| ==> garbage[i] != garbage[j]
      ensures forall n :: n in edges[s] ==> n in marked
      ensures heap.states == old(heap).states
      ensures heap.transitions == old(heap).transitions + Transitions(edges, {s})
    {
      garbage := [];
      ghost var before := heap.transitions;
      for i := 0 to |edges[s]|
        invariant marked == old(marked) + (set n | n in garbage)
        invariant forall n :: n in garbage ==> n in edges[s] && n !in old(marked)
        invariant forall j, k :: 0 <= j < k < |garbage| ==> garbage[j] != garbage[k]
        invariant forall j :: 0 <= j < i ==> edges[s][j] in marked
        invariant heap.states == old(heap).states
        invariant heap.transitions == before + set j: nat | j < i :: (s, j)
      {
        var n := edges[s][i];
        if n !in marked {
          marked := marked + {n};
          garbage := garbage + [n];
        }
        FreeTransition(s, i);
      }
    }

    /** `state_destroy`: it frees its argument and every state it marks, and their transitions, and the
        calls to `FreeState` and `FreeTransition` show that it frees nothing twice. */
    method StateDestroy(s: nat)
      requires Graph(edges) && s < |edges| && marked <= Below(|edges|) && Untouched({s}, marked, heap)
      modifies this
      ensures s in marked && old(marked) <= marked <= Below(|edges|)
      ensures var gone := {s} + (marked - old(marked)); Freed(edges, s, gone, gone, marked, old(heap), heap)
      decreases Below(|edges|) - marked, 1
    {
      marked := marked + {s};
      ghost var before := marked;
      var garbage := MarkTargets(s);
      assert Freed(edges, s, {}, {s}, marked, old(heap), heap) by {
        assert Steps(edges, s, s, 0);
      }
      var swept := Sweep(s, garbage, before, old(heap));
      FreeState(s);
      assert {s} + swept == {s} + (marked - old(marked));
    }

    /** The second half: destroy what was queued. It returns the states that this frees. */
    method Sweep(s: nat, garbage: seq<nat>, ghost before: set<nat>, ghost was: Heap)
      returns (ghost swept: set<nat>)
      requires Graph(edges) && s < |edges| && s in before && before <= marked <= Below(|edges|)
      requires marked == before + (set n | n in garbage)
      requires forall n :: n in garbage ==> n in edges[s] && n !in before
      requires forall i, j :: 0 <= i < j < |garbage| ==> garbage[i] != garbage[j]
      requires Untouched({s}, before, was)
      requires Freed(edges, s, {}, {s}, marked, was, heap)
      modifies this
      ensures old(marked) <= marked <= Below(|edges|)
      ensures swept == marked - before
      ensures Freed(edges, s, swept, {s} + swept, marked, was, heap)
      decreases Below(|edges|) - before, 0
    {
      swept := {};
      assert {s} + {} == {s};
      for i := 0 to |garbage|
        invariant old(marked) <= marked <= Below(|edges|)
        invariant swept <= marked - before
        invariant forall n :: n in marked - before ==> n in swept || n in garbage[i..]
        invariant forall n :: n in garbage[i..] ==> n !in swept
        invariant Freed(edges, s, swept, {s} + swept, marked, was, heap)
      {
        var q := garbage[i];
        assert q in garbage && q in old(marked);
        assert q in Below(|edges|) - before;
        ghost var already, mid := marked, heap;
        StateDestroy(q);
        ghost var more := {q} + (marked - already);
        FreedMore(edges, s, q, swept, more, already, marked, was, mid, heap);
        swept := swept + more;
      }
    }

    /** `machine_destroy`, from a machine none of whose states has been marked: every state reachable from
        the root, and every transition out of one, is freed, and nothing else is. */
    method Destroy(root: nat)
      requires Graph(edges) && root < |edges|
      requires marked == {} && heap == Heap({}, {})
      modifies this
      ensures forall n: nat :: n in heap.states <==> Reachable(edges, root, n)
      ensures forall n: nat, i: nat ::
        (n, i) in heap.transitions <==> Reachable(edges, root, n) && n < |edges| && i < |edges[n]|
    {
      StateDestroy(root);
      assert {root} + (marked - {}) == marked;
      forall n | Reachable(edges, root, n)
        ensures n in marked
      {
        var k: nat :| Steps(edges, root, n, k);
        ClosedHoldsReachable(edges, marked, root, n, k);
      }
    }
  }
}
