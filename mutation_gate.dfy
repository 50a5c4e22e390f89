/** The path from a DOM mutation to new links: the gate between the mutation observer and the
    scan (`processMutationsImmediately`, `processMutationsThrottled`, `stopObserving`), and the
    scan itself (`processMutations`). Timers and animation frames are explicit events: a
    callback that is scheduled and neither cancelled nor run yet is held, with the mutations
    it captured, in the gate's state. */
module MutationGate {
  import opened Seqs

  /** An added node: the anchor itself when it is an `A` element, and what its
      `querySelectorAll('a[href]')` finds below it (nothing for a node without that method). */
  datatype Node<T> = Node(anchor: Option<T>, descendants: seq<T>)

  /** A mutation record: whether it is a `childList` record, and its added nodes. */
  datatype Mutation<T> = Mutation(isChildList: bool, addedNodes: seq<Node<T>>)

  /** The links of one node, in the order the scan visits them. */
  function NodeLinks<T>(node: Node<T>): seq<T> {
    (if node.anchor.Some? then [node.anchor.value] else []) + node.descendants
  }

  function NodesLinks<T>(nodes: seq<Node<T>>): seq<T>
    decreases |nodes|
  {
    if nodes == [] then [] else NodesLinks(nodes[..|nodes| - 1]) + NodeLinks(nodes[|nodes| - 1])
  }

  lemma NodesLinksSnoc<T>(nodes: seq<Node<T>>, j: nat)
    requires j < |nodes|
    ensures forall pre: seq<T> {:trigger pre + NodesLinks(nodes[..j + 1])} ::
      pre + NodesLinks(nodes[..j + 1]) == pre + NodesLinks(nodes[..j]) + NodeLinks(nodes[j])
  {
    assert nodes[..j + 1][..j] == nodes[..j];
  }

  /** Every link the scan considers, in visiting order: those of the added nodes of the
      `childList` records. */
  function Candidates<T>(ms: seq<Mutation<T>>): seq<T>
    decreases |ms|
  {
    if ms == [] then []
    else
      var last := ms[|ms| - 1];
      Candidates(ms[..|ms| - 1]) + (if last.isChildList then NodesLinks(last.addedNodes) else [])
  }

  /** The `Set` the scan fills from the candidates `xs`: each passing candidate is added when
      it is not in the set yet. */
  function ScanOf<T(==)>(xs: seq<T>, keep: T -> bool): seq<T>
    decreases |xs|
  {
    if xs == [] then []
    else
      var found := ScanOf(xs[..|xs| - 1], keep);
      var x := xs[|xs| - 1];
      if keep(x) && x !in found then found + [x] else found
  }

  lemma ScanSnoc<T>(xs: seq<T>, x: T, keep: T -> bool)
    ensures ScanOf(xs + [x], keep) ==
      if keep(x) && x !in ScanOf(xs, keep) then ScanOf(xs, keep) + [x] else ScanOf(xs, keep)
  {
    assert (xs + [x])[..|xs|] == xs;
  }

  /** The scan's set is the passing candidates, de-duplicated in first-seen order. */
  lemma {:induction false} ScanIsDedupFilter<T>(xs: seq<T>, keep: T -> bool)
    ensures ScanOf(xs, keep) == Dedup(Filter(xs, keep))
    decreases |xs|
  {
    if xs != [] {
      var init := xs[..|xs| - 1];
      var x := xs[|xs| - 1];
      ScanIsDedupFilter(init, keep);
      assert init + [x] == xs;
      FilterAppend(init, [x], keep);
      if keep(x) {
        DedupSnoc(Filter(init, keep), x);
      } else {
        assert Filter(init, keep) + [] == Filter(init, keep);
      }
    }
  }

  /** The scan of one added node: the node itself when it is an anchor, then the links below
      it, each added to the `Set` when it passes and is new. */
  method ScanNode<T(==)>(node: Node<T>, keep: T -> bool, found: seq<T>, ghost seen: seq<T>)
    returns (newLinks: seq<T>)
    requires found == ScanOf(seen, keep)
    ensures newLinks == ScanOf(seen + NodeLinks(node), keep)
  {
    newLinks := found;
    ghost var pre := seen;
    if node.anchor.Some? {
      var a := node.anchor.value;
      ScanSnoc(seen, a, keep);
      if keep(a) && a !in newLinks {
        newLinks := newLinks + [a];
      }
      pre := seen + [a];
      assert seen + NodeLinks(node) == pre + node.descendants;
    } else {
      assert seen + NodeLinks(node) == pre + node.descendants;
    }
    ScanPrefix(pre, node.descendants, 0, keep);
    for k := 0 to |node.descendants|
      invariant newLinks == ScanOf(pre + node.descendants[..k], keep)
    {
      var d := node.descendants[k];
      ScanPrefix(pre, node.descendants, k + 1, keep);
      if keep(d) && d !in newLinks {
        newLinks := newLinks + [d];
      }
    }
    assert node.descendants[..|node.descendants|] == node.descendants;
  }

  /** One more element of `ds` scanned after `pre`. */
  lemma ScanPrefix<T>(pre: seq<T>, ds: seq<T>, k: nat, keep: T -> bool)
    requires k <= |ds|
    ensures k == 0 ==> pre + ds[..k] == pre
    ensures k > 0 ==>
      (var found := ScanOf(pre + ds[..k - 1], keep);
       ScanOf(pre + ds[..k], keep) == if keep(ds[k - 1]) && ds[k - 1] !in found then found + [ds[k - 1]] else found)
  {
    if k > 0 {
      assert pre + ds[..k] == pre + ds[..k - 1] + [ds[k - 1]];
      ScanSnoc(pre + ds[..k - 1], ds[k - 1], keep);
    } else {
      assert pre + ds[..0] == pre;
    }
  }

  /** The candidates of one more record. */
  lemma CandidatesStep<T>(ms: seq<Mutation<T>>, i: nat)
    requires i < |ms|
    ensures Candidates(ms[..i + 1]) ==
      Candidates(ms[..i]) + (if ms[i].isChildList then NodesLinks(ms[i].addedNodes) else [])
  {
    assert ms[..i + 1][..i] == ms[..i];
  }

  /** `processMutations`: the links of the added nodes that pass `keep` (valid and not yet
      processed), each once in first-seen order, and whether a batch is dispatched. */

  method ProcessMutations<T(==)>(ms: seq<Mutation<T>>, keep: T -> bool) returns (newLinks: seq<T>, dispatch: bool)
    ensures newLinks == Dedup(Filter(Candidates(ms), keep))
    ensures dispatch <==> |newLinks| > 0
  {
    newLinks := [];
    for i := 0 to |ms|
      invariant newLinks == ScanOf(Candidates(ms[..i]), keep)
    {
      var m := ms[i];
      ghost var seen := Candidates(ms[..i]);
      CandidatesStep(ms, i);
      if m.isChildList {
        assert seen + NodesLinks(m.addedNodes[..0]) == seen;
        for j := 0 to |m.addedNodes|
          invariant newLinks == ScanOf(seen + NodesLinks(m.addedNodes[..j]), keep)
        {
          NodesLinksSnoc(m.addedNodes, j);
          newLinks := ScanNode(m.addedNodes[j], keep, newLinks, seen + NodesLinks(m.addedNodes[..j]));
        }
        assert m.addedNodes[..|m.addedNodes|] == m.addedNodes;
      } else {
        assert seen + [] == seen;
      }
    }
    assert ms[..|ms|] == ms;
    ScanIsDedupFilter(Candidates(ms), keep);
    dispatch := |newLinks| > 0;
  }

  /** The scan finds each passing candidate exactly once and nothing else. */
  lemma ScanFindsPassingLinks<T>(ms: seq<Mutation<T>>, keep: T -> bool)
    ensures var r := Dedup(Filter(Candidates(ms), keep));
      && Distinct(r)
      && (forall i :: 0 <= i < |r| ==> r[i] in Candidates(ms) && keep(r[i]))
      && (forall i :: 0 <= i < |Candidates(ms)| && keep(Candidates(ms)[i]) ==> Candidates(ms)[i] in r)
  {
    var c := Candidates(ms);
    var f := Filter(c, keep);
    var r := Dedup(f);
    forall i | 0 <= i < |c| && keep(c[i])
      ensures c[i] in r
    {
      var j :| 0 <= j < |f| && f[j] == c[i];
    }
    forall i | 0 <= i < |r|
      ensures r[i] in c && keep(r[i])
    {
      var j :| 0 <= j < |f| && f[j] == r[i];
    }
  }

  // ---------------------------------------------------------------------------------------
  // The gate

  /** The gate's part of the highlighter: whether `throttleTimeout` and `debounceTimeout` hold a
      handle, the timeout callback and the animation-frame callback still to run with the
      mutations each captured, and `performanceMetrics.throttledUpdates`. */
  datatype Gate<M> = Gate(
    throttleArmed: bool,
    timerPending: Option<M>,
    frameArmed: bool,
    framePending: Option<M>,
    throttledUpdates: nat)
  {
    /** A callback is only pending while its handle is held. */
    predicate Valid() {
      (timerPending.Some? ==> throttleArmed) && (framePending.Some? ==> frameArmed)
    }
  }

  function InitialGate<M>(): (g: Gate<M>)
    ensures g.Valid()
  {
    Gate(false, None, false, None, 0)
  }

  /** Scheduling an animation frame for `ms`, cancelling the one held. */
  function RequestFrame<M>(g: Gate<M>, ms: M): (r: Gate<M>)
    ensures g.Valid() ==> r.Valid()
    ensures r.framePending == Some(ms) && r.frameArmed
    ensures r.throttleArmed == g.throttleArmed && r.timerPending == g.timerPending
    ensures r.throttledUpdates == g.throttledUpdates
  {
    g.(frameArmed := true, framePending := Some(ms))
  }

  /** `processMutationsImmediately(mutations)`. */
  function Immediately<M>(g: Gate<M>, ms: M): (r: Gate<M>)
    ensures g.Valid() ==> r.Valid()
    ensures r.framePending == Some(ms) && r.frameArmed
    ensures r.throttleArmed == g.throttleArmed && r.timerPending == g.timerPending
    ensures r.throttledUpdates == g.throttledUpdates
  {
    RequestFrame(g, ms)
  }

  /** `processMutationsThrottled(mutations)`: a held timeout handle is cleared and counted as a
      throttled update (whether or not its callback already ran), then a new timeout is set. */
  function Throttled<M>(g: Gate<M>, ms: M): (r: Gate<M>)
    ensures g.Valid() ==> r.Valid()
    ensures r.throttleArmed && r.timerPending == Some(ms)
    ensures r.throttledUpdates == g.throttledUpdates + (if g.throttleArmed then 1 else 0)
    ensures r.frameArmed == g.frameArmed && r.framePending == g.framePending
  {
    g.(throttleArmed := true, timerPending := Some(ms),
       throttledUpdates := g.throttledUpdates + (if g.throttleArmed then 1 else 0))
  }

  /** The timeout callback runs: it schedules a frame for the mutations it captured. The
      timeout handle is not reset. */
  function TimerFires<M>(g: Gate<M>): (r: Gate<M>)
    requires g.timerPending.Some?
    ensures g.Valid() ==> r.Valid()
    ensures r.timerPending.None? && r.throttleArmed == g.throttleArmed
    ensures r.framePending == g.timerPending && r.frameArmed
    ensures r.throttledUpdates == g.throttledUpdates
  {
    RequestFrame(g, g.timerPending.value).(timerPending := None)
  }

  /** The frame callback runs: the mutations it captured go to the scan. */
  function FrameFires<M>(g: Gate<M>): (r: (Gate<M>, M))
    requires g.framePending.Some?
    ensures g.Valid() ==> r.0.Valid()
    ensures r.1 == g.framePending.value && r.0.framePending.None?
    ensures r.0.throttleArmed == g.throttleArmed && r.0.timerPending == g.timerPending
    ensures r.0.frameArmed == g.frameArmed && r.0.throttledUpdates == g.throttledUpdates
  {
    (g.(framePending := None), g.framePending.value)
  }

  /** The gate part of `stopObserving`: both handles are cancelled and cleared. */
  function StopGate<M>(g: Gate<M>): (r: Gate<M>)
    ensures r.Valid()
    ensures !r.throttleArmed && !r.frameArmed && r.timerPending.None? && r.framePending.None?
    ensures r.throttledUpdates == g.throttledUpdates
  {
    g.(throttleArmed := false, timerPending := None, frameArmed := false, framePending := None)
  }

  /** A burst of observer callbacks in throttled mode, one after the other. */
  function ThrottleAll<M>(g: Gate<M>, bursts: seq<M>): Gate<M>
    decreases |bursts|
  {
    if bursts == [] then g else ThrottleAll(Throttled(g, bursts[0]), bursts[1..])
  }

  /** Of several bursts that arrive before the timeout runs, only the last one reaches the
      scan; and every burst but the first of a stopped or fresh gate counts as throttled. */
  lemma {:induction false} OnlyLastBurstScanned<M>(g: Gate<M>, bursts: seq<M>)
    requires g.Valid() && bursts != []
    ensures var r := ThrottleAll(g, bursts);
      && r.Valid()
      && r.timerPending == Some(bursts[|bursts| - 1])
      && FrameFires(TimerFires(r)).1 == bursts[|bursts| - 1]
      && r.throttledUpdates == g.throttledUpdates + |bursts| - (if g.throttleArmed then 0 else 1)
    decreases |bursts|
  {
    var g1 := Throttled(g, bursts[0]);
    if |bursts| > 1 {
      OnlyLastBurstScanned(g1, bursts[1..]);
    }
  }

  /** Bursts far enough apart that each timeout runs before the next burst: nothing is ever
      cancelled while pending, yet each burst after the first still counts as throttled,
      because the timeout handle is never reset. */
  function SpacedBursts<M>(g: Gate<M>, bursts: seq<M>): Gate<M>
    decreases |bursts|
  {
    if bursts == [] then g
    else
      var fired := TimerFires(Throttled(g, bursts[0]));
      SpacedBursts(FrameFires(fired).0, bursts[1..])
  }

  lemma {:induction false} SpacedBurstsStillCount<M>(bursts: seq<M>)
    requires bursts != []
    ensures SpacedBursts(InitialGate<M>(), bursts).throttledUpdates == |bursts| - 1
  {
    var g := InitialGate<M>();
    var first := FrameFires(TimerFires(Throttled(g, bursts[0]))).0;
    assert first.throttleArmed && first.throttledUpdates == 0;
    SpacedBurstsArmed(first, bursts[1..]);
  }

  lemma {:induction false} SpacedBurstsArmed<M>(g: Gate<M>, bursts: seq<M>)
    requires g.throttleArmed
    ensures SpacedBursts(g, bursts).throttledUpdates == g.throttledUpdates + |bursts|
    decreases |bursts|
  {
    if bursts != [] {
      var next := FrameFires(TimerFires(Throttled(g, bursts[0]))).0;
      SpacedBurstsArmed(next, bursts[1..]);
    }
  }

  /** In immediate mode a new burst replaces the frame still held: the earlier burst is never
      scanned. */
  lemma ImmediateKeepsLatest<M>(g: Gate<M>, first: M, second: M)
    ensures FrameFires(Immediately(Immediately(g, first), second)).1 == second
  {
  }
}
