/** The hash chains of kext/vnops.c: the stretches of nget_9p, ndel_9p and vnop_reclaim_9p under the table lock,
    on the chains themselves. Each does to the nodes what its step in NodeTable does. */
module NodeChains {
  import opened NodeTable
  import opened Options

  ghost predicate Distinct(chain: seq<NodeId>) { forall i, j :: 0 <= i < j < |chain| ==> chain[i] != chain[j] }

  /** LIST_REMOVE. */
  function Unlinked(chain: seq<NodeId>, n: NodeId): (r: seq<NodeId>)
    requires Distinct(chain)
    ensures Distinct(r) && forall m :: m in r <==> m in chain && m != n
  {
    if chain == [] then []
    else if chain[0] == n then chain[1..]
    else
      var rest := Unlinked(chain[1..], n);
      assert chain[0] !in chain[1..] by { assert forall k :: 0 <= k < |chain[1..]| ==> chain[1..][k] == chain[k + 1]; }
      [chain[0]] + rest
  }

  /** The chain of a slot holds the listed nodes whose paths hash to it. */
  ghost predicate Holds(chain: seq<NodeId>, nodes: map<NodeId, Node>, slot: nat, slots: nat)
    requires slots > 0
  {
    Distinct(chain) && forall n :: n in chain <==> n in nodes && nodes[n].listed && nodes[n].path % slots == slot
  }

  /** With paths unique, the chain that a path hashes to leads to the node that the whole table has for it. */
  lemma HitIs(s: State, path: Path, n: NodeId)
    requires UniquePaths(s) && Listed(s, n, path)
    ensures Hit(s, path) == Some(n)
  {
    assert Hit(s, path).Some?;
  }

  class Mount {
    var chains: seq<seq<NodeId>>
    var nodes: map<NodeId, Node>
    var nextNode: NodeId

    ghost predicate Valid()
      reads this
    {
      && |chains| > 0
      && (forall i :: 0 <= i < |chains| ==> Holds(chains[i], nodes, i, |chains|))
      && forall n :: n in nodes ==> n < nextNode
    }

    ghost predicate Is(s: State)
      reads this
    {
      s.nodes == nodes && s.nextNode == nextNode
    }

    /** One round of nget_9p's loop, up to where it gives up the lock. */
    method Scan(fid: Fid, path: Path) returns (next: Phase)
      requires Valid()
      modifies this
      ensures Valid()
      ensures forall s: State, t: Thread :: old(Is(s)) && UniquePaths(s) && PhaseOf(s, t) == Walked(fid, path) ==>
        var s' := Apply(s, Step(t, Action.Scan)); Is(s') && PhaseOf(s', t) == next
    {
      var slot := path % |chains|;
      var chain := chains[slot];
      var i := 0;
      while i < |chain|
        invariant 0 <= i <= |chain|
        invariant forall k :: 0 <= k < i ==> nodes[chain[k]].path != path
      {
        var n := chain[i];
        assert n in chain;
        var x := nodes[n];
        if x.path == path {
          forall s: State | Is(s) && UniquePaths(s) ensures Hit(s, path) == Some(n) { HitIs(s, path, n); }
          if x.init {
            nodes := nodes[n := x.(waitinit := true)];
            return SleepsInit(fid, path, n);
          }
          if x.recl {
            nodes := nodes[n := x.(waitrecl := true)];
            return SleepsRecl(fid, path, n);
          }
          return Found(fid, path, n);
        }
        i := i + 1;
      }
      forall s: State | Is(s) ensures Hit(s, path).None? { NotListed(s, chain, slot, path); }
      next := Initing(fid, path, nextNode);
      nodes := nodes[nextNode := Node(path, fid, true, false, false, false, true, false)];
      chains := chains[slot := [nextNode] + chain];
      nextNode := nextNode + 1;
    }

    lemma NotListed(s: State, chain: seq<NodeId>, slot: nat, path: Path)
      requires Valid() && Is(s) && slot == path % |chains| && chain == chains[slot]
      requires forall k :: 0 <= k < |chain| ==> nodes[chain[k]].path != path
      ensures Hit(s, path).None?
    {
      forall n | n in chain ensures !Listed(s, n, path) {}
    }

    /** The end of nget_9p when the node has its vnode. */
    method Initialised(n: NodeId) returns (wake: bool)
      requires Valid() && n in nodes
      modifies this
      ensures Valid()
      ensures forall s: State, t: Thread :: old(Is(s)) && PhaseOf(s, t).Initing? && PhaseOf(s, t).n == n ==>
        Is(Apply(s, Step(t, InitDone))) && (wake <==> WakesOn(s, Step(t, InitDone)) == n)
    {
      var x := nodes[n];
      wake := x.waitinit;
      nodes := nodes[n := x.(init := false, waitinit := false, owning := true)];
    }

    /** And when it could not be had. */
    method Withdrawn(n: NodeId) returns (wake: bool)
      requires Valid() && n in nodes && nodes[n].listed
      modifies this
      ensures Valid()
      ensures forall s: State, t: Thread :: old(Is(s)) && PhaseOf(s, t).Initing? && PhaseOf(s, t).n == n ==>
        Is(Apply(s, Step(t, InitFails))) && (wake <==> WakesOn(s, Step(t, InitFails)) == n)
    {
      wake := nodes[n].waitinit;
      var slot := nodes[n].path % |chains|;
      chains := chains[slot := Unlinked(chains[slot], n)];
      nodes := nodes - {n};
    }

    /** ndel_9p. */
    method Ndel(n: NodeId)
      requires Valid() && n in nodes && nodes[n].listed
      modifies this
      ensures Valid()
      ensures forall s: State, t: Thread :: old(Is(s)) && PhaseOf(s, t) == Marked(n) ==> Is(Apply(s, Step(t, Unlist)))
    {
      var slot := nodes[n].path % |chains|;
      chains := chains[slot := Unlinked(chains[slot], n)];
      nodes := nodes[n := nodes[n].(listed := false)];
    }

    /** The end of vnop_reclaim_9p. */
    method Freed(n: NodeId) returns (wake: bool)
      requires Valid() && n in nodes && !nodes[n].listed
      modifies this
      ensures Valid()
      ensures forall s: State, t: Thread :: old(Is(s)) && PhaseOf(s, t) == Finishing(n) ==>
        Is(Apply(s, Step(t, Finish))) && (wake <==> WakesOn(s, Step(t, Finish)) == n)
    {
      wake := nodes[n].waitrecl;
      nodes := nodes - {n};
    }
  }
}
