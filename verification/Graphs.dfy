/** Finite directed graphs: walks, cycles, and ranks that rule cycles out. */
module Graphs {
  import opened Prelude

  type Graph = set<(string, string)>

  ghost predicate IsWalk(g: Graph, p: seq<string>) {
    |p| >= 1 && forall i :: 0 <= i < |p| - 1 ==> (p[i], p[i + 1]) in g
  }

  ghost predicate IsClosedWalk(g: Graph, p: seq<string>) {
    |p| >= 2 && IsWalk(g, p) && p[0] == p[|p| - 1]
  }

  ghost predicate HasCycle(g: Graph) {
    exists p :: IsClosedWalk(g, p)
  }

  /** A closed walk whose nodes are distinct except that the first is the last. */
  ghost predicate IsSimpleCycle(g: Graph, p: seq<string>) {
    IsClosedWalk(g, p) && Distinct(p[..|p| - 1])
  }

  /** Every edge goes to a strictly larger rank. */
  ghost predicate Ranked(g: Graph, rank: map<string, nat>) {
    forall e :: e in g ==> e.0 in rank && e.1 in rank && rank[e.0] < rank[e.1]
  }

  lemma {:induction false} RankAlongWalk(g: Graph, rank: map<string, nat>, p: seq<string>)
    requires Ranked(g, rank) && IsWalk(g, p) && |p| >= 2
    ensures p[0] in rank && p[|p| - 1] in rank && rank[p[0]] + |p| - 1 <= rank[p[|p| - 1]]
  {
    assert (p[0], p[1]) in g;
    if |p| > 2 {
      var rest := p[1..];
      assert forall i :: 0 <= i < |rest| - 1 ==> (rest[i], rest[i + 1]) == (p[i + 1], p[i + 2]);
      RankAlongWalk(g, rank, rest);
    }
  }

  lemma RankedIsAcyclic(g: Graph, rank: map<string, nat>)
    requires Ranked(g, rank)
    ensures !HasCycle(g)
  {
    forall p ensures !IsClosedWalk(g, p) {
      if IsClosedWalk(g, p) {
        RankAlongWalk(g, rank, p);
        assert false;
      }
    }
  }

  ghost function Nodes(g: Graph): set<string> {
    (set e | e in g :: e.0) + (set e | e in g :: e.1)
  }

  // ---------- an acyclic graph has a rank

  ghost predicate HasPred(g: Graph, s: set<string>, v: string) {
    exists u :: u in s && (u, v) in g
  }

  /** A backward walk of `n` edges inside `s`, when every node of `s` has a predecessor there. */
  lemma {:induction false} BackwardWalk(g: Graph, s: set<string>, start: string, n: nat) returns (p: seq<string>)
    requires start in s && forall v :: v in s ==> HasPred(g, s, v)
    ensures |p| == n + 1 && IsWalk(g, p) && p[n] == start && forall i :: 0 <= i < |p| ==> p[i] in s
    decreases n
  {
    if n == 0 {
      p := [start];
    } else {
      var u :| u in s && (u, start) in g;
      var q := BackwardWalk(g, s, u, n - 1);
      p := q + [start];
    }
  }

  lemma {:induction false} DistinctFits(p: seq<string>, s: set<string>)
    requires Distinct(p) && forall i :: 0 <= i < |p| ==> p[i] in s
    ensures |p| <= |s|
  {
    if p != [] {
      var n := |p| - 1;
      DistinctFits(p[..n], s - {p[n]});
    }
  }

  lemma SubWalkClosed(g: Graph, p: seq<string>, i: nat, j: nat)
    requires IsWalk(g, p) && i < j < |p| && p[i] == p[j]
    ensures IsClosedWalk(g, p[i..j + 1])
  {
    var q := p[i..j + 1];
    assert forall k :: 0 <= k < |q| - 1 ==> (q[k], q[k + 1]) == (p[i + k], p[i + k + 1]);
  }

  /** A finite set in which every node has a predecessor contains a cycle. */
  lemma NoSourceMeansCycle(g: Graph, s: set<string>)
    requires s != {} && forall v :: v in s ==> HasPred(g, s, v)
    ensures HasCycle(g)
  {
    var start :| start in s;
    var p := BackwardWalk(g, s, start, |s|);
    assert !Distinct(p) by {
      if Distinct(p) {
        DistinctFits(p, s);
      }
    }
    var i, j :| 0 <= i < j < |p| && p[i] == p[j];
    SubWalkClosed(g, p, i, j);
  }

  /** Ranks for the nodes of `done`, such that edges into `done` come from lower ranks. */
  ghost predicate RankedUpTo(g: Graph, done: set<string>, rank: map<string, nat>) {
    && rank.Keys == done
    && (forall v :: v in done ==> rank[v] < |done|)
    && forall e :: e in g && e.1 in done ==> e.0 in done && rank[e.0] < rank[e.1]
  }

  /** In an acyclic graph every nonempty set has a node without predecessor in the set. */
  lemma SourceExists(g: Graph, s: set<string>) returns (v: string)
    requires !HasCycle(g) && s != {}
    ensures v in s && !HasPred(g, s, v)
  {
    if forall u :: u in s ==> HasPred(g, s, u) {
      NoSourceMeansCycle(g, s);
    }
    v :| v in s && !HasPred(g, s, v);
  }

  lemma RankOneMore(g: Graph, all: set<string>, done: set<string>, rank: map<string, nat>, v: string)
    requires Nodes(g) <= all && RankedUpTo(g, done, rank) && v in all && v !in done && !HasPred(g, all - done, v)
    ensures RankedUpTo(g, done + {v}, rank[v := |done|])
  {
    forall e | e in g && e.1 == v ensures e.0 in done {
      assert e.0 in Nodes(g);
      assert e == (e.0, v);
    }
  }

  lemma {:induction false} ExtendRank(g: Graph, all: set<string>, done: set<string>, rank: map<string, nat>)
    returns (r: map<string, nat>)
    requires !HasCycle(g) && Nodes(g) <= all && done <= all && RankedUpTo(g, done, rank)
    ensures RankedUpTo(g, all, r)
    decreases |all - done|
  {
    hide RankedUpTo, HasCycle, Nodes, HasPred;
    if forall x :: x in all ==> x in done {
      assert done == all;
      r := rank;
    } else {
      var x :| x in all && x !in done;
      assert x in all - done;
      var v := SourceExists(g, all - done);
      RankOneMore(g, all, done, rank, v);
      assert all - (done + {v}) == all - done - {v};
      r := ExtendRank(g, all, done + {v}, rank[v := |done|]);
    }
  }

  /** A finite graph without cycles can be ranked. */
  lemma AcyclicHasRank(g: Graph) returns (rank: map<string, nat>)
    requires !HasCycle(g)
    ensures Ranked(g, rank)
  {
    rank := ExtendRank(g, Nodes(g), {}, map[]);
    forall e | e in g ensures e.0 in rank && e.1 in rank {
      assert e.0 in Nodes(g) && e.1 in Nodes(g);
    }
  }
}
