/** One scheduling cycle (cmd/scheduler/main.go): Pending pods of the default namespace are bound round-robin
    to Ready nodes, with a cursor that persists across cycles. */
module Scheduler {
  import opened Wrappers
  import opened Seqs
  import opened Types
  import opened Store
  import Client
  import ApiServer

  const DefaultNamespace := "default"

  /** The pod the scheduler writes: the listed pod bound to `node` and moved to Scheduled, nothing else changed. */
  function Bind(pod: Pod, node: Node): (r: Pod)
    ensures r.nodeName == node.name && r.phase == Scheduled
    ensures KeyOf(r) == KeyOf(pod) && r.markedForDeletion == pod.markedForDeletion
    ensures r.(nodeName := pod.nodeName, phase := pod.phase) == pod
  {
    pod.(nodeName := node.name, phase := Scheduled)
  }

  function NotMarked(): Pod -> bool
  {
    (p: Pod) => !p.markedForDeletion
  }

  /** The pods a cycle does not skip: those without a deletion mark, in listed order. */
  function Unmarked(pending: seq<Pod>): seq<Pod>
  {
    Filter(pending, NotMarked())
  }

  /** The writes of one cycle started with cursor `cursor`, in the order they are issued: every unmarked pod,
      bound to the ready node the cursor selects, the cursor advancing once per written pod. */
  function Assignments(pending: seq<Pod>, ready: seq<Node>, cursor: nat): (r: seq<Pod>)
    ensures |r| <= |pending|
    ensures |ready| == 0 ==> r == []
    decreases |pending|
  {
    if pending == [] then []
    else
      var earlier := Assignments(pending[..|pending| - 1], ready, cursor);
      var pod := pending[|pending| - 1];
      if pod.markedForDeletion || |ready| == 0 then earlier
      else earlier + [Bind(pod, ready[(cursor + |earlier|) % |ready|])]
  }

  /** The writes of a cycle over one more pending pod: the pod's write, if any, follows the earlier ones. */
  lemma AssignmentsStep(pending: seq<Pod>, ready: seq<Node>, cursor: nat, i: nat)
    requires i < |pending|
    ensures var earlier := Assignments(pending[..i], ready, cursor);
            Assignments(pending[..i + 1], ready, cursor) ==
              if pending[i].markedForDeletion || |ready| == 0 then earlier
              else earlier + [Bind(pending[i], ready[(cursor + |earlier|) % |ready|])]
  {
    assert pending[..i + 1][..i] == pending[..i];
  }

  /** A skipped pod adds no write. */
  lemma SkipStep(pending: seq<Pod>, ready: seq<Node>, cursor: nat, i: nat)
    requires i < |pending| && (pending[i].markedForDeletion || |ready| == 0)
    ensures Assignments(pending[..i + 1], ready, cursor) == Assignments(pending[..i], ready, cursor)
  {
    AssignmentsStep(pending, ready, cursor, i);
  }

  /** A bound pod adds its write, and the table after it is the table after all the writes so far. */
  lemma BindStep(pods: map<string, Pod>, pending: seq<Pod>, ready: seq<Node>, cursor: nat, i: nat,
                 before: map<string, Pod>, after: map<string, Pod>)
    requires i < |pending| && !pending[i].markedForDeletion && |ready| > 0
    requires before == PodsAfterUpdates(pods, Assignments(pending[..i], ready, cursor))
    requires after == PodsAfterUpdate(before,
               Bind(pending[i], ready[(cursor + |Assignments(pending[..i], ready, cursor)|) % |ready|]))
    ensures var earlier := Assignments(pending[..i], ready, cursor);
            var w := Bind(pending[i], ready[(cursor + |earlier|) % |ready|]);
            Assignments(pending[..i + 1], ready, cursor) == earlier + [w] &&
            after == PodsAfterUpdates(pods, earlier + [w])
  {
    var earlier := Assignments(pending[..i], ready, cursor);
    AssignmentsStep(pending, ready, cursor, i);
    UpdatesSnoc(pods, earlier, Bind(pending[i], ready[(cursor + |earlier|) % |ready|]));
  }

  /** The k-th pod without a deletion mark is bound to ready[(cursor + k) mod n]; marked pods take no turn. */
  lemma {:induction false} AssignmentsAreRoundRobin(pending: seq<Pod>, ready: seq<Node>, cursor: nat)
    requires |ready| > 0
    ensures |Assignments(pending, ready, cursor)| == |Unmarked(pending)|
    ensures forall k :: 0 <= k < |Unmarked(pending)| ==>
              Assignments(pending, ready, cursor)[k] == Bind(Unmarked(pending)[k], ready[(cursor + k) % |ready|])
    decreases |pending|
  {
    if pending != [] {
      var init, last := pending[..|pending| - 1], pending[|pending| - 1];
      AssignmentsAreRoundRobin(init, ready, cursor);
      var a0, u0 := Assignments(init, ready, cursor), Unmarked(init);
      var a, u := Assignments(pending, ready, cursor), Unmarked(pending);
      assert u == u0 + (if last.markedForDeletion then [] else [last]);
      assert a == a0 + (if last.markedForDeletion then [] else [Bind(last, ready[(cursor + |a0|) % |ready|])]);
      forall k | 0 <= k < |u| ensures a[k] == Bind(u[k], ready[(cursor + k) % |ready|]) {
        if k < |u0| {
          assert u[k] == u0[k] && a[k] == a0[k];
        }
      }
    }
  }

  /** Every written pod is Scheduled, carries no deletion mark, and is bound to a node of the ready list. */
  lemma AssignmentsTargetReadyNodes(pending: seq<Pod>, ready: seq<Node>, cursor: nat)
    requires forall n :: n in ready ==> n.status == Ready
    ensures forall w :: w in Assignments(pending, ready, cursor) ==>
              w.phase == Scheduled && !w.markedForDeletion &&
              exists n :: n in ready && n.name == w.nodeName && n.status == Ready
  {
    if |ready| > 0 {
      AssignmentsAreRoundRobin(pending, ready, cursor);
      var a, u := Assignments(pending, ready, cursor), Unmarked(pending);
      forall w | w in a
        ensures w.phase == Scheduled && !w.markedForDeletion
        ensures exists n :: n in ready && n.name == w.nodeName && n.status == Ready
      {
        var k :| 0 <= k < |a| && a[k] == w;
        FilterMembers(pending, NotMarked(), u[k]);
        assert ready[(cursor + k) % |ready|] in ready;
      }
    }
  }

  lemma MultipleInsideUnitIsZero(t: int, n: int)
    requires n > 0 && -n < t * n < n
    ensures t == 0
  {
  }

  /** The remainder of x modulo n is the r of any decomposition x == q * n + r with 0 <= r < n. */
  lemma ModOfDecomposition(x: int, n: int, q: int, r: int)
    requires n > 0 && 0 <= r < n && x == q * n + r
    ensures x % n == r
  {
    var q', r' := x / n, x % n;
    assert x == q' * n + r';
    assert (q' - q) * n == r - r';
    MultipleInsideUnitIsZero(q' - q, n);
  }

  /** The ready-list position the cursor selects on turn k of a cycle. */
  function Turn(cursor: nat, k: nat, n: nat): nat
    requires n > 0
  {
    (cursor + k) % n
  }

  /** The turn in the window [start, start + n) on which the cursor selects position j. */
  function TurnFor(cursor: nat, start: nat, n: nat, j: nat): nat
    requires n > 0
  {
    start + (j - cursor - start) % n
  }

  /** Over any n consecutive turns the cursor selects every one of the n positions exactly once: position j
      on turn TurnFor(..., j) of the window, and no two turns of the window select the same position. */
  lemma RoundRobinWindow(cursor: nat, start: nat, n: nat)
    requires n > 0
    ensures forall j: nat :: j < n ==>
              start <= TurnFor(cursor, start, n, j) < start + n && Turn(cursor, TurnFor(cursor, start, n, j), n) == j
    ensures forall k1: nat, k2: nat :: start <= k1 < k2 < start + n ==> Turn(cursor, k1, n) != Turn(cursor, k2, n)
  {
    forall j: nat | j < n
      ensures start <= TurnFor(cursor, start, n, j) < start + n && Turn(cursor, TurnFor(cursor, start, n, j), n) == j
    {
      var m := j - cursor - start;
      var k := TurnFor(cursor, start, n, j);
      assert m == (m / n) * n + m % n;
      ModOfDecomposition(cursor + k, n, -(m / n), j);
    }
    forall k1: nat, k2: nat | start <= k1 < k2 < start + n
      ensures Turn(cursor, k1, n) != Turn(cursor, k2, n)
    {
      var a, b := cursor + k1, cursor + k2;
      assert a == (a / n) * n + a % n && b == (b / n) * n + b % n;
      if a % n == b % n {
        assert (b / n - a / n) * n == k2 - k1;
        MultipleInsideUnitIsZero(b / n - a / n, n);
      }
    }
  }

  /** With a fixed ready list of n nodes, any n consecutive writes of a cycle use each node position exactly once:
      position j is used by write TurnFor(..., j) of the window, and no two writes of the window share a position. */
  lemma EachReadyNodeOncePerWindow(pending: seq<Pod>, ready: seq<Node>, cursor: nat, start: nat)
    requires |ready| > 0
    requires start + |ready| <= |Unmarked(pending)|
    ensures |Assignments(pending, ready, cursor)| == |Unmarked(pending)|
    ensures forall j: nat :: j < |ready| ==>
              var k := TurnFor(cursor, start, |ready|, j);
              start <= k < start + |ready| &&
              Assignments(pending, ready, cursor)[k] == Bind(Unmarked(pending)[k], ready[j])
    ensures forall k1: nat, k2: nat :: start <= k1 < k2 < start + |ready| ==>
              Turn(cursor, k1, |ready|) != Turn(cursor, k2, |ready|)
  {
    AssignmentsAreRoundRobin(pending, ready, cursor);
    RoundRobinWindow(cursor, start, |ready|);
  }

  /** When nothing intervenes between listing and writing, every write of a cycle lands: the k-th unmarked pod
      is stored bound to ready[(cursor + k) mod n] and Scheduled. */
  lemma CycleLands(pods: map<string, Pod>, pending: seq<Pod>, ready: seq<Node>, cursor: nat)
    requires forall p :: p in pending ==> KeyOf(p) in pods && pods[KeyOf(p)] == p
    requires Distinct(pending)
    requires |ready| > 0
    ensures forall k :: 0 <= k < |Unmarked(pending)| ==>
              var p := Unmarked(pending)[k];
              KeyOf(p) in PodsAfterUpdates(pods, Assignments(pending, ready, cursor)) &&
              PodsAfterUpdates(pods, Assignments(pending, ready, cursor))[KeyOf(p)] == Bind(p, ready[Turn(cursor, k, |ready|)])
  {
    var u, a := Unmarked(pending), Assignments(pending, ready, cursor);
    AssignmentsAreRoundRobin(pending, ready, cursor);
    forall p | p in u ensures KeyOf(p) in pods && pods[KeyOf(p)] == p {
      FilterMembers(pending, NotMarked(), p);
    }
    FilterKeepsDistinct(pending, NotMarked());
    HeldPodsHaveDistinctKeys(pods, u);
    forall w | w in a ensures KeyOf(w) in pods {
      var k :| 0 <= k < |a| && a[k] == w;
      assert u[k] in u;
    }
    assert DistinctKeys(a) by {
      forall i, j | 0 <= i < j < |a| ensures KeyOf(a[i]) != KeyOf(a[j]) {
        assert KeyOf(a[i]) == KeyOf(u[i]) && KeyOf(a[j]) == KeyOf(u[j]);
      }
    }
    forall k | 0 <= k < |u|
      ensures KeyOf(u[k]) in PodsAfterUpdates(pods, a)
      ensures PodsAfterUpdates(pods, a)[KeyOf(u[k])] == Bind(u[k], ready[Turn(cursor, k, |ready|)])
    {
      UpdatesLand(pods, a, k);
    }
  }

  class Scheduler {
    /** The round-robin cursor, kept across cycles. */
    var nextNodeIndex: nat

    constructor ()
      ensures nextNodeIndex == 0
    {
      nextNodeIndex := 0;
    }

    /** The assignment loop of a cycle over lists already fetched. The store may have changed since they were
        listed: an update whose pod is gone fails on its own and the loop goes on. */
    method AssignPods(pending: seq<Pod>, ready: seq<Node>, store: InMemoryStore)
      requires store.Valid()
      modifies this, store
      ensures store.Valid() && store.nodes == old(store.nodes)
      ensures store.pods == PodsAfterUpdates(old(store.pods), Assignments(pending, ready, old(nextNodeIndex)))
      ensures nextNodeIndex == old(nextNodeIndex) + |Assignments(pending, ready, old(nextNodeIndex))|
    {
      ghost var c0 := nextNodeIndex;
      ghost var written: seq<Pod> := [];
      for i := 0 to |pending|
        invariant store.Valid() && store.nodes == old(store.nodes)
        invariant written == Assignments(pending[..i], ready, c0)
        invariant nextNodeIndex == c0 + |written|
        invariant store.pods == PodsAfterUpdates(old(store.pods), written)
      {
        var pod := pending[i];
        if pod.markedForDeletion {
          SkipStep(pending, ready, c0, i);
          continue;
        }
        if |ready| == 0 {
          SkipStep(pending, ready, c0, i);
          continue;
        }
        var selected := ready[nextNodeIndex % |ready|];
        nextNodeIndex := nextNodeIndex + 1;
        ghost var before := store.pods;
        Assign(pod, selected, store);
        BindStep(old(store.pods), pending, ready, c0, i, before, store.pods);
        written := written + [Bind(pod, selected)];
      }
      assert pending[..|pending|] == pending;
    }

    /** One bind of a cycle: the listed pod with its node and phase set, sent through the update endpoint; a
        failure is only reported. */
    method Assign(pod: Pod, selected: Node, store: InMemoryStore)
      requires store.Valid()
      modifies store
      ensures store.Valid() && store.nodes == old(store.nodes)
      ensures store.pods == PodsAfterUpdate(old(store.pods), Bind(pod, selected))
    {
      var podToUpdate := pod.(nodeName := selected.name);
      podToUpdate := podToUpdate.(phase := Scheduled);
      var code := ApiServer.UpdatePodHandler(store, podToUpdate);
      var outcome := Client.UpdateResult<Pod>(Client.Reply(code, None));
    }

    /** One cycle: list the Pending pods of the default namespace and the Ready nodes, and when both lists are
        non-empty, bind every unmarked pod round-robin. The lists it acted on are returned. */
    method SchedulePods(store: InMemoryStore) returns (pending: seq<Pod>, ready: seq<Node>)
      requires store.Valid()
      modifies this, store
      ensures store.Valid() && store.nodes == old(store.nodes)
      ensures forall p :: p in pending <==> old(store.HoldsPod(p)) && p.namespace == DefaultNamespace && p.phase == Pending
      ensures Distinct(pending)
      ensures pending != [] ==> forall n :: n in ready <==> old(store.HoldsNode(n)) && n.status == Ready
      ensures Distinct(ready)
      ensures pending == [] || ready == [] ==>
                store.pods == old(store.pods) && nextNodeIndex == old(nextNodeIndex)
      ensures pending != [] && ready != [] ==>
                && store.pods == PodsAfterUpdates(old(store.pods), Assignments(pending, ready, old(nextNodeIndex)))
                && nextNodeIndex == old(nextNodeIndex) + |Unmarked(pending)|
      ensures pending != [] && ready != [] ==>
                forall k :: 0 <= k < |Unmarked(pending)| ==>
                  var p := Unmarked(pending)[k];
                  KeyOf(p) in store.pods && store.pods[KeyOf(p)] == Bind(p, ready[Turn(old(nextNodeIndex), k, |ready|)])
    {
      var podsCode, listedPods := ApiServer.ListPodsHandler(store, DefaultNamespace);
      var podsResult := Client.ListPods(Client.Reply(podsCode, Some(listedPods)), Pending);
      pending := podsResult.value;
      forall p ensures p in pending <==> p in listedPods && p.phase == Pending {
        Client.SelectPodsExactly(listedPods, Pending, p);
      }
      FilterKeepsDistinct(listedPods, Client.HasPhase(Pending));
      if |pending| == 0 {
        ready := [];
        return;
      }
      var nodesCode, listedNodes := ApiServer.ListNodesHandler(store);
      var nodesResult := Client.ListNodes(Client.Reply(nodesCode, Some(listedNodes)), Ready);
      ready := nodesResult.value;
      forall n ensures n in ready <==> n in listedNodes && n.status == Ready {
        Client.SelectNodesExactly(listedNodes, Ready, n);
      }
      FilterKeepsDistinct(listedNodes, Client.HasStatus(Ready));
      if |ready| == 0 {
        return;
      }
      AssignmentsAreRoundRobin(pending, ready, nextNodeIndex);
      CycleLands(store.pods, pending, ready, nextNodeIndex);
      AssignPods(pending, ready, store);
    }
  }
}
