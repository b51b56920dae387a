/** Closed walks in a finite directed graph. */
module Digraph {

  ghost predicate IsWalk<V>(edge: (V, V) -> bool, walk: seq<V>) {
    forall k | 0 <= k < |walk| - 1 :: edge(walk[k], walk[k + 1])
  }

  ghost predicate IsCycle<V>(edge: (V, V) -> bool, walk: seq<V>) {
    |walk| >= 2 && walk[0] == walk[|walk| - 1] && IsWalk(edge, walk)
  }

  ghost predicate Acyclic<V(!new)>(edge: (V, V) -> bool) {
    forall walk :: !IsCycle(edge, walk)
  }

  ghost predicate Ranks<V(!new)>(edge: (V, V) -> bool, rank: map<V, nat>) {
    forall t, u | edge(t, u) :: t in rank && u in rank && rank[t] < rank[u]
  }

  lemma {:induction false} RankGrowsAlongWalk<V(!new)>(edge: (V, V) -> bool, rank: map<V, nat>, walk: seq<V>, k: nat)
    requires Ranks(edge, rank) && IsWalk(edge, walk) && 0 < k < |walk|
    ensures walk[0] in rank && walk[k] in rank && rank[walk[0]] < rank[walk[k]]
  {
    assert edge(walk[k - 1], walk[(k - 1) + 1]);
    if k > 1 {
      RankGrowsAlongWalk(edge, rank, walk, k - 1);
    }
  }

  lemma RankedIsAcyclic<V(!new)>(edge: (V, V) -> bool, rank: map<V, nat>)
    requires Ranks(edge, rank)
    ensures Acyclic(edge)
  {
    forall walk | IsCycle(edge, walk) ensures false {
      RankGrowsAlongWalk(edge, rank, walk, |walk| - 1);
    }
  }

  lemma {:induction false} GrowsAlongWalk<V(!new)>(edge: (V, V) -> bool, f: V -> nat, walk: seq<V>, k: nat)
    requires forall t, u, v | edge(t, u) && edge(u, v) :: f(t) < f(u)
    requires IsWalk(edge, walk) && 0 < k < |walk| - 1
    ensures f(walk[0]) < f(walk[k])
  {
    assert edge(walk[k - 1], walk[(k - 1) + 1]) && edge(walk[k], walk[k + 1]);
    if k > 1 {
      GrowsAlongWalk(edge, f, walk, k - 1);
    }
  }

  /** A graph is acyclic if a measure grows along every edge that does not lead to a dead end. */
  lemma GrowingIsAcyclic<V(!new)>(edge: (V, V) -> bool, f: V -> nat)
    requires forall t, u, v | edge(t, u) && edge(u, v) :: f(t) < f(u)
    ensures Acyclic(edge)
  {
    forall walk | IsCycle(edge, walk) ensures false {
      var n := |walk| - 1;
      assert edge(walk[0], walk[0 + 1]) && edge(walk[n - 1], walk[(n - 1) + 1]);
      if n > 1 {
        GrowsAlongWalk(edge, f, walk, n - 1);
      }
    }
  }

  lemma ExtendWalk<V>(edge: (V, V) -> bool, t: V, walk: seq<V>)
    requires |walk| >= 1 && edge(t, walk[0]) && IsWalk(edge, walk)
    ensures IsWalk(edge, [t] + walk)
  {}

  /** A walk with its two ends. */
  ghost predicate Connects<V>(edge: (V, V) -> bool, walk: seq<V>, from: V, to: V) {
    |walk| >= 1 && walk[0] == from && walk[|walk| - 1] == to && IsWalk(edge, walk)
  }

  lemma ConnectsMore<V>(edge: (V, V) -> bool, walk: seq<V>, from: V, mid: V, to: V)
    requires Connects(edge, walk, from, mid) && edge(mid, to)
    ensures Connects(edge, walk + [to], from, to)
  {}

  lemma ConnectsOn<V>(edge: (V, V) -> bool, walk: seq<V>, more: seq<V>, from: V, mid: V, to: V)
    requires Connects(edge, walk, from, mid) && Connects(edge, more, mid, to)
    ensures Connects(edge, walk + more[1..], from, to)
  {
    var whole := walk + more[1..];
    forall k | 0 <= k < |whole| - 1 ensures edge(whole[k], whole[k + 1]) {
      if k >= |walk| - 1 {
        var j := k - (|walk| - 1);
        assert whole[k] == more[j] && edge(more[j], more[j + 1]);
      }
    }
  }

  lemma ConnectsAlso<V(!new)>(edge: (V, V) -> bool, wider: (V, V) -> bool, walk: seq<V>, from: V, to: V)
    requires Connects(edge, walk, from, to) && forall v, w | edge(v, w) :: wider(v, w)
    ensures Connects(wider, walk, from, to)
  {}

  function Elements<V>(walk: seq<V>): set<V> {
    set v | v in walk
  }

  ghost predicate HasPredecessor<V(!new)>(edge: (V, V) -> bool, among: set<V>, u: V) {
    exists t :: t in among && edge(t, u)
  }

  /** Walking backwards inside a finite set whose every element has a predecessor in it closes a cycle. */
  lemma {:induction false} BlockedSetHasCycle<V(!new)>(edge: (V, V) -> bool, blocked: set<V>, walk: seq<V>)
    requires forall u {:trigger HasPredecessor(edge, blocked, u)} | u in blocked :: HasPredecessor(edge, blocked, u)
    requires |walk| >= 1 && Elements(walk) <= blocked && IsWalk(edge, walk)
    ensures !Acyclic(edge)
    decreases blocked - Elements(walk)
  {
    assert walk[0] in Elements(walk);
    assert HasPredecessor(edge, blocked, walk[0]);
    var t :| t in blocked && edge(t, walk[0]);
    ExtendWalk(edge, t, walk);
    var longer := [t] + walk;
    if t in walk {
      var k :| 0 <= k < |walk| && walk[k] == t;
      var loop := longer[..k + 2];
      forall j | 0 <= j < |loop| - 1 ensures edge(loop[j], loop[j + 1]) {
        assert edge(longer[j], longer[j + 1]);
      }
      assert IsCycle(edge, loop);
    } else {
      assert Elements(longer) == Elements(walk) + {t};
      BlockedSetHasCycle(edge, blocked, longer);
    }
  }
}
