/** The node agent (cmd/kubelet/main.go): registration of its node, and one sync pass that advances the
    phase of the pods bound to its node. */
module Kubelet {
  import opened Wrappers
  import opened Seqs
  import opened Types
  import opened Store
  import Client
  import ApiServer
  import Scheduler

  const DefaultNamespace := "default"

  /** The phase the agent of `nodeName` writes into a listed pod, or None when it leaves the pod alone.
      The deletion mark is handled first and alone; only unmarked pods reach the switch on the phase. */
  function NextPhase(pod: Pod, nodeName: string): (r: Option<PodPhase>)
    ensures r.Some? ==> pod.nodeName == nodeName && !IsFinal(pod.phase)
    ensures r.Some? ==> r.value in {Running, Deleted, Succeeded}
    ensures r.Some? && pod.markedForDeletion ==> r.value == Deleted
  {
    if pod.nodeName != nodeName then None
    else if pod.markedForDeletion then
      if pod.phase != Succeeded && pod.phase != Failed && pod.phase != Deleted then Some(Deleted) else None
    else
      match pod.phase
      case Scheduled => Some(Running)
      case Running => None
      // the source re-tests the phase against the final phases here, which always passes
      case Terminating => Some(Deleted)
      case Deleting => Some(Succeeded)
      case _ => None
  }

  /** The pod the agent writes for `pod`: the listed pod with only its phase replaced. */
  function Advanced(pod: Pod, phase: PodPhase): (r: Pod)
    ensures r.phase == phase && r.(phase := pod.phase) == pod && KeyOf(r) == KeyOf(pod)
  {
    pod.(phase := phase)
  }

  /** The writes of one sync pass over `pods`, in the order they are issued: at most one per listed pod, each
      for a pod of this node and to Running, Deleted or Succeeded. */
  function SyncWrites(pods: seq<Pod>, nodeName: string): (r: seq<Pod>)
    ensures |r| <= |pods|
    ensures forall w :: w in r ==> w.nodeName == nodeName && w.phase in {Running, Deleted, Succeeded}
    decreases |pods|
  {
    if pods == [] then []
    else
      var earlier := SyncWrites(pods[..|pods| - 1], nodeName);
      var pod := pods[|pods| - 1];
      match NextPhase(pod, nodeName)
      case Some(phase) => earlier + [Advanced(pod, phase)]
      case None => earlier
  }

  /** A marked pod is only ever moved to Deleted, and is left alone once in a final phase. */
  lemma MarkedPodsOnlyGoToDeleted(pod: Pod, nodeName: string)
    requires pod.markedForDeletion && pod.nodeName == nodeName
    ensures NextPhase(pod, nodeName) == if IsFinal(pod.phase) then None else Some(Deleted)
  {
  }

  /** Unmarked pods follow the phase table: Scheduled to Running, Terminating to Deleted, Deleting to
      Succeeded; every other phase (Pending, Running, the final ones, unlisted text) is left alone. */
  lemma UnmarkedTransitions(pod: Pod, nodeName: string)
    requires !pod.markedForDeletion && pod.nodeName == nodeName
    ensures NextPhase(pod, nodeName).Some? <==> pod.phase in {Scheduled, Terminating, Deleting}
    ensures pod.phase == Scheduled ==> NextPhase(pod, nodeName) == Some(Running)
    ensures pod.phase == Terminating ==> NextPhase(pod, nodeName) == Some(Deleted)
    ensures pod.phase == Deleting ==> NextPhase(pod, nodeName) == Some(Succeeded)
  {
  }

  /** A pod in a final phase is never written, marked or not. */
  lemma FinalPhasesAreKept(pod: Pod, nodeName: string)
    requires IsFinal(pod.phase)
    ensures NextPhase(pod, nodeName) == None
  {
  }

  /** After one write a pod needs no further write: a sync pass reaches a fixed point for every pod at once. */
  lemma OneWriteSettles(pod: Pod, nodeName: string)
    requires NextPhase(pod, nodeName).Some?
    ensures NextPhase(Advanced(pod, NextPhase(pod, nodeName).value), nodeName) == None
  {
  }

  /** A pod the scheduler bound to `node` is started (moved to Running) by that node's agent and by no other. */
  lemma BoundPodIsStartedByItsNode(pod: Pod, node: Node)
    requires !pod.markedForDeletion
    ensures NextPhase(Scheduler.Bind(pod, node), node.name) == Some(Running)
    ensures forall other :: other != node.name ==> NextPhase(Scheduler.Bind(pod, node), other) == None
  {
  }

  /** Every write of a pass is a listed pod of this node with only its phase changed, to the phase the decision
      gives; so pods of other nodes are never written, and nothing is written Pending or Scheduled, Running only
      from an unmarked Scheduled pod, and a marked pod only Deleted. */
  lemma {:induction false} SyncWritesAreDecisions(pods: seq<Pod>, nodeName: string, w: Pod)
    requires w in SyncWrites(pods, nodeName)
    ensures exists p :: p in pods && p.nodeName == nodeName && NextPhase(p, nodeName) == Some(w.phase) &&
                        w == Advanced(p, w.phase)
    ensures w.nodeName == nodeName
    ensures w.phase != Pending && w.phase != Scheduled
    ensures w.phase == Running ==> !w.markedForDeletion
    ensures w.markedForDeletion ==> w.phase == Deleted
    decreases |pods|
  {
    var init := pods[..|pods| - 1];
    if w in SyncWrites(init, nodeName) {
      SyncWritesAreDecisions(init, nodeName, w);
      var p :| p in init && p.nodeName == nodeName && NextPhase(p, nodeName) == Some(w.phase) && w == Advanced(p, w.phase);
      assert p in pods;
    } else {
      assert pods[|pods| - 1] in pods;
    }
  }

  /** What a listed pod's key holds after a pass in which nothing intervenes: the decided phase when the pod is
      written, the pod as stored before otherwise. */
  function AfterSync(pod: Pod, before: Pod, nodeName: string): Pod
  {
    match NextPhase(pod, nodeName)
    case Some(phase) => Advanced(pod, phase)
    case None => before
  }

  /** The store after a pass, one listed pod at a time. */
  lemma SyncStep(pods: map<string, Pod>, listed: seq<Pod>, nodeName: string)
    requires listed != []
    ensures var init, last := listed[..|listed| - 1], listed[|listed| - 1];
            var before := PodsAfterUpdates(pods, SyncWrites(init, nodeName));
            PodsAfterUpdates(pods, SyncWrites(listed, nodeName)) ==
              match NextPhase(last, nodeName)
              case Some(phase) => PodsAfterUpdate(before, Advanced(last, phase))
              case None => before
  {
    var init, last := listed[..|listed| - 1], listed[|listed| - 1];
    var w := SyncWrites(listed, nodeName);
    if NextPhase(last, nodeName).Some? {
      assert w[..|w| - 1] == SyncWrites(init, nodeName);
    }
  }

  /** When the listed pods have distinct stored keys, every write of a pass lands and every other pod is kept. */
  lemma {:induction false} SyncLands(pods: map<string, Pod>, listed: seq<Pod>, nodeName: string)
    requires forall p :: p in listed ==> KeyOf(p) in pods
    requires DistinctKeys(listed)
    ensures forall p :: p in listed ==>
              KeyOf(p) in PodsAfterUpdates(pods, SyncWrites(listed, nodeName)) &&
              PodsAfterUpdates(pods, SyncWrites(listed, nodeName))[KeyOf(p)] == AfterSync(p, pods[KeyOf(p)], nodeName)
    decreases |listed|
  {
    if listed != [] {
      var init, last := listed[..|listed| - 1], listed[|listed| - 1];
      assert forall p :: p in init ==> p in listed;
      SyncLands(pods, init, nodeName);
      var before := PodsAfterUpdates(pods, SyncWrites(init, nodeName));
      var after := PodsAfterUpdates(pods, SyncWrites(listed, nodeName));
      SyncStep(pods, listed, nodeName);
      LastUntouchedBefore(pods, listed, nodeName);
      forall p | p in listed
        ensures KeyOf(p) in after && after[KeyOf(p)] == AfterSync(p, pods[KeyOf(p)], nodeName)
      {
        var j :| 0 <= j < |listed| && listed[j] == p;
        if j < |listed| - 1 {
          assert p in init && KeyOf(p) != KeyOf(last);
        }
      }
    }
  }

  /** No write of a pass over all but the last listed pod touches the last pod's key. */
  lemma LastUntouchedBefore(pods: map<string, Pod>, listed: seq<Pod>, nodeName: string)
    requires listed != [] && KeyOf(listed[|listed| - 1]) in pods
    requires DistinctKeys(listed)
    ensures var init, last := listed[..|listed| - 1], listed[|listed| - 1];
            KeyOf(last) in PodsAfterUpdates(pods, SyncWrites(init, nodeName)) &&
            PodsAfterUpdates(pods, SyncWrites(init, nodeName))[KeyOf(last)] == pods[KeyOf(last)]
  {
    var init, last := listed[..|listed| - 1], listed[|listed| - 1];
    forall w | w in SyncWrites(init, nodeName) ensures KeyOf(w) != KeyOf(last) {
      SyncWritesAreDecisions(init, nodeName, w);
      var p :| p in init && p.nodeName == nodeName && NextPhase(p, nodeName) == Some(w.phase) && w == Advanced(p, w.phase);
      var j :| 0 <= j < |init| && init[j] == p;
      assert listed[j] == p;
    }
    UpdatesLeaveOthers(pods, SyncWrites(init, nodeName), KeyOf(last));
  }

  class Kubelet {
    const nodeName: string
    const nodeAddress: string

    constructor (nodeName: string, nodeAddress: string)
      ensures this.nodeName == nodeName && this.nodeAddress == nodeAddress
    {
      this.nodeName := nodeName;
      this.nodeAddress := nodeAddress;
    }

    /** Registers this node as Ready: a create request, and when that fails an update of the existing record.
        Succeeds exactly when the name is non-empty; the node record is then this node, whatever it was. */
    method RegisterNode(store: InMemoryStore) returns (r: Outcome<Client.ClientError>)
      requires store.Valid()
      modifies store
      ensures store.Valid() && store.pods == old(store.pods)
      ensures r.Pass? <==> nodeName != ""
      ensures r.Pass? ==> store.nodes == old(store.nodes)[nodeName := Node(nodeName, nodeAddress, Ready)]
      ensures r.Fail? ==> store.nodes == old(store.nodes)
    {
      var node := Node(nodeName, nodeAddress, Ready);
      var code, created := ApiServer.CreateNodeHandler(store, Some(node));
      var createResult := Client.CreateNodeResult(Client.Reply(code, created));
      if createResult.Ok? {
        return Pass;
      }
      var path := Client.UpdateNodePath("", node);
      if path.Err? {
        return Fail(path.error);
      }
      var updateCode := ApiServer.UpdateNodeHandler(store, node);
      var updateResult := Client.UpdateResult<Node>(Client.Reply(updateCode, None));
      if updateResult.Fail? {
        return Fail(Client.UnexpectedStatus(updateCode));
      }
      return Pass;
    }

    /** The loop of a sync pass over pods already listed. The store may have changed since: an update whose pod
        is gone fails on its own and the pass goes on. */
    method ReconcilePods(pods: seq<Pod>, store: InMemoryStore)
      requires store.Valid()
      modifies store
      ensures store.Valid() && store.nodes == old(store.nodes)
      ensures store.pods == PodsAfterUpdates(old(store.pods), SyncWrites(pods, nodeName))
    {
      for i := 0 to |pods|
        invariant store.Valid() && store.nodes == old(store.nodes)
        invariant store.pods == PodsAfterUpdates(old(store.pods), SyncWrites(pods[..i], nodeName))
      {
        assert pods[..i + 1][..i] == pods[..i];
        SyncStep(old(store.pods), pods[..i + 1], nodeName);
        var pod := pods[i];
        if pod.nodeName == nodeName {
          if pod.markedForDeletion {
            if pod.phase != Succeeded && pod.phase != Failed && pod.phase != Deleted {
              Write(pods, i, store, Deleted);
            }
            continue;
          }
          match pod.phase {
            case Scheduled =>
              Write(pods, i, store, Running);
            case Running =>
            case Terminating =>
              Write(pods, i, store, Deleted);
            case Deleting =>
              Write(pods, i, store, Succeeded);
            case _ =>
          }
        }
      }
      assert pods[..|pods|] == pods;
    }

    /** One update of a sync pass: pods[i] with phase `phase`, sent through the update endpoint; a failure is only
        reported. */
    method Write(pods: seq<Pod>, i: nat, store: InMemoryStore, phase: PodPhase)
      requires i < |pods| && store.Valid()
      requires NextPhase(pods[i], nodeName) == Some(phase)
      modifies store
      ensures store.Valid() && store.nodes == old(store.nodes)
      ensures store.pods == PodsAfterUpdate(old(store.pods), Advanced(pods[i], phase))
    {
      var updated := pods[i].(phase := phase);
      var code := ApiServer.UpdatePodHandler(store, updated);
      var outcome := Client.UpdateResult<Pod>(Client.Reply(code, None));
    }

    /** One sync pass: list every pod of the default namespace and advance those bound to this node. */
    method SyncPods(store: InMemoryStore) returns (listed: seq<Pod>)
      requires store.Valid()
      modifies store
      ensures store.Valid() && store.nodes == old(store.nodes)
      ensures forall p :: p in listed <==> old(store.HoldsPod(p)) && p.namespace == DefaultNamespace
      ensures Distinct(listed)
      ensures store.pods == PodsAfterUpdates(old(store.pods), SyncWrites(listed, nodeName))
      ensures forall p :: p in listed ==> KeyOf(p) in store.pods && store.pods[KeyOf(p)] == AfterSync(p, p, nodeName)
    {
      var code, all := ApiServer.ListPodsHandler(store, DefaultNamespace);
      var result := Client.ListPods(Client.Reply(code, Some(all)), NoPhase);
      listed := result.value;
      HeldPodsHaveDistinctKeys(store.pods, listed);
      SyncLands(store.pods, listed, nodeName);
      ReconcilePods(listed, store);
    }
  }
}
