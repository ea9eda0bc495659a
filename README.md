# k8s-lite-go control plane, modelled in Dafny

k8s-lite-go is a miniature Kubernetes. An API server keeps Pods and Nodes in an in-memory table. A scheduler binds
Pending pods round-robin to Ready nodes. A kubelet per node registers its node and moves the phase of the pods
bound to it. This project models that core and proves what each part promises:

- `types.dfy` (module `Types`): the Pod and Node records, the eight pod phases and the two node statuses. In the
  source phases and statuses are open strings, so each is a datatype with an extra "unlisted text" case. A
  subset type keeps it canonical, so that equality of values is equality of the source's strings. The deletion
  timestamp is modelled by its presence only (`markedForDeletion`).
- `store.dfy` (module `Store`): the in-memory store as a class `InMemoryStore` with two map fields, pods keyed by
  `namespace + "/" + name` and nodes keyed by name. Its ten operations report `AlreadyExists`/`NotFound`, and
  each postcondition states the exact new table. `PodsAfterUpdate(s)` is the reference definition of one or a
  series of last-writer-wins updates.
- `client.dfy` (module `Client`): the API client without HTTP. It covers URL building (a loop, proved against
  `JoinPath`, with a split/join round trip), the status-code checks (201 for create, 200 otherwise), the
  empty-name guard of node updates, and the client-side phase and status filter loops. A server reply is a
  parameter.
- `apiserver.dfy` (module `ApiServer`): the route table and the request handlers without the web framework. It
  covers validation, defaulting and the mapping of store results to status codes.
- `scheduler.dfy` (module `Scheduler`): one scheduling cycle. It is a class holding the persistent round-robin
  cursor, with a loop that binds every unmarked pending pod. It is proved against the specification function
  `Assignments`, with fairness and landing lemmas.
- `kubelet.dfy` (module `Kubelet`): the per-pod phase decision as the pure function `NextPhase`, the sync loop
  proved against `SyncWrites`, and node registration with its create-then-update fallback.
- `seqs.dfy` and `wrappers.dfy`: an order-preserving filter with its lemmas, and `Option`/`Result`/`Outcome`.

Control loops talk to the server through the client. In the model each call goes straight to the corresponding
handler on a shared `InMemoryStore`, and the handler's status code passes through the client's status check.
Every loop method accepts arbitrary, possibly stale, listed sequences. An update whose pod has vanished fails
on its own, and the loop goes on.

Unlike Kubernetes, there is no resource version and no optimistic-concurrency check: updates are
last-writer-wins. Deleting a pod removes it outright, and no server code path sets the deletion timestamp.

## Model

| member | source | states |
|---|---|---|
| Types.ParsePhase | pkg/api/types.go:21-34 | reading a phase string gives the canonical phase whose text is that string |
| Types.PhaseTextRoundTrip | pkg/api/types.go:25-34 | every phase is recovered from its text |
| Types.PhaseEqualityIsTextEquality | pkg/api/types.go:25-34 | two phases are equal iff their strings are, so the eight named phases are pairwise distinct |
| Types.ParseStatus | pkg/api/types.go:5-12 | reading a status string gives the canonical status whose text is that string |
| Types.StatusEqualityIsTextEquality | pkg/api/types.go:9-12 | two statuses are equal iff their strings are, so Ready and NotReady differ |
| Seqs.FilterMembers | pkg/api/client.go:134-140 | an element is in the filter result iff it is in the input and satisfies the predicate |
| Seqs.FilterCounts | pkg/api/client.go:134-140 | each kept element occurs as often as in the input, a dropped one not at all |
| Seqs.FilterPreservesOrder | pkg/api/client.go:134-140 | the result is the input read at strictly increasing positions, so relative order is kept |
| Seqs.FilterKeepsDistinct | pkg/api/client.go:171-177 | filtering a list without repetitions gives one without repetitions |
| Store.PodKey | pkg/store/memory.go:26-28 | the key is the namespace, one slash and the name: its length is their lengths plus one, with the slash right after the namespace |
| Store.NoSlashBeforeNamespaceEnd | pkg/store/memory.go:26-28 | for a slash-free namespace the first slash of the key is the separator |
| Store.PodKeyInjective | pkg/store/memory.go:26-28 | for slash-free namespaces two keys are equal iff namespace and name are, so same-named pods in different namespaces coexist |
| Store.PodKeyCollides | pkg/store/memory.go:26-28 | with a slash in a namespace two different pods share a key: the key is not injective in general |
| Store.PodsAfterUpdate | pkg/store/memory.go:57-67 | an update keeps the key set, replaces the whole pod at its key when present, and leaves every other key as it was |
| Store.PodsAfterUpdates | pkg/store/memory.go:57-67 | a series of updates never inserts or removes a pod: the key set is unchanged |
| Store.UpdatesSnoc | pkg/store/memory.go:57-67 | applying a series and then one more update is applying the extended series |
| Store.UpdatesLeaveOthers | pkg/store/memory.go:57-67 | a stored pod whose key no update targets keeps its value |
| Store.UpdatesKeepKeyed | pkg/store/memory.go:57-67 | updates keep every pod stored under its own key |
| Store.UpdatesLand | pkg/store/memory.go:57-67 | when updates target distinct stored keys, each key ends holding its update |
| Store.HeldPodsHaveDistinctKeys | pkg/store/memory.go:84-95 | distinct pods each stored under their own key have distinct keys |
| Store.InMemoryStore.constructor | pkg/store/memory.go:19-24 | a new store has empty pod and node tables |
| Store.InMemoryStore.CreatePod | pkg/store/memory.go:31-41 | succeeds iff the key is absent, and then inserts exactly that key; otherwise AlreadyExists and no change |
| Store.InMemoryStore.GetPod | pkg/store/memory.go:44-54 | returns exactly the pod stored under namespace/name (whose namespace and name are those asked for when slash-free), or NotFound iff the key is absent |
| Store.InMemoryStore.UpdatePod | pkg/store/memory.go:57-67 | succeeds iff the key exists; the table becomes PodsAfterUpdate of the old one (whole replacement, nothing inserted, nothing else changed) |
| Store.InMemoryStore.DeletePod | pkg/store/memory.go:70-80 | succeeds iff the key exists and then removes exactly that key; otherwise NotFound and no change |
| Store.InMemoryStore.ListPods | pkg/store/memory.go:84-95 | returns exactly the stored pods of the namespace, each once, in unspecified order |
| Store.InMemoryStore.CreateNode | pkg/store/memory.go:98-107 | succeeds iff the name is absent, and then inserts exactly that node; otherwise AlreadyExists and no change |
| Store.InMemoryStore.GetNode | pkg/store/memory.go:110-119 | returns the node stored under the name, which carries that name, or NotFound iff absent |
| Store.InMemoryStore.UpdateNode | pkg/store/memory.go:122-131 | succeeds iff the name exists and then replaces exactly that node; otherwise NotFound and no change |
| Store.InMemoryStore.DeleteNode | pkg/store/memory.go:134-143 | succeeds iff the name exists and then removes exactly that node; otherwise NotFound and no change |
| Store.InMemoryStore.ListNodes | pkg/store/memory.go:146-155 | returns every stored node exactly once, in unspecified order |
| Client.BuildURL | pkg/api/client.go:30-39 | the path is the base path followed by "/" + segment for each segment, in order |
| Client.SplitPath | pkg/api/client.go:30-39 | the router's view of a path: no segment it yields holds a slash |
| Client.SplitJoinRoundTrip | pkg/api/client.go:30-39 | splitting a built path gives back its segments when none holds a slash |
| Client.CreateNodeResult | pkg/api/client.go:56-71 | a create succeeds iff the reply is 201 with a decodable body, which is then the result; any other status is reported as that status |
| Client.UpdateResult | pkg/api/client.go:92-102 | an update succeeds iff the reply has status 200 |
| Client.UpdateNodePath | pkg/api/client.go:75-79 | fails with EmptyNodeName iff the node name is empty; otherwise gives the node item path |
| Client.SelectPodsExactly | pkg/api/client.go:130-140 | a non-empty phase selects exactly the listed pods in that phase, with their multiplicities and relative order |
| Client.SelectNodesExactly | pkg/api/client.go:167-177 | a non-empty status selects exactly the listed nodes with that status, with their multiplicities and relative order |
| Client.ListPods | pkg/api/client.go:108-141 | succeeds iff the reply is 200 with a decodable body; an empty phase returns the list unchanged, any other phase exactly the pods in that phase |
| Client.ListNodes | pkg/api/client.go:145-178 | succeeds iff the reply is 200 with a decodable body; an empty status returns the list unchanged, any other status exactly the nodes with that status |
| ApiServer.Route | cmd/apiserver/main.go:27-43 | the registered table answers no PUT request and never reaches an update handler |
| ApiServer.PodItemSegments | pkg/api/client.go:180-181 | a pod item path with a slash-free namespace and name splits into its six segments |
| ApiServer.NodeItemSegments | pkg/api/client.go:74-79 | a node item path with a slash-free name splits into its four segments |
| ApiServer.PodUpdateIsNotRouted | cmd/apiserver/main.go:27-33 | for a non-empty, slash-free namespace and name, the client's pod-update path is routed for GET but not for PUT, and the resulting 404 makes the client's update fail |
| ApiServer.NodeUpdateIsNotRouted | cmd/apiserver/main.go:37-43 | for a non-empty, slash-free name, the node-update path is routed for GET but not for PUT |
| ApiServer.IntendedRoute | cmd/apiserver/main.go:27-43 | the intended table agrees with the registered routes on every verb other than PUT, and routes a PUT iff it names a pod item or a node item |
| ApiServer.UpdatesAreRoutedAsIntended | cmd/apiserver/main.go:27-43 | with the intended table the client's pod and node updates reach the update handlers, for non-empty, slash-free parameters |
| ApiServer.SlashedPodNameIsNotRouted | cmd/apiserver/main.go:27-33 | a pod name holding a slash gives a seven-segment path, which even the intended table does not route |
| ApiServer.SlashedNodeNameIsNotRouted | cmd/apiserver/main.go:37-43 | a node name holding a slash gives a five-segment path, which even the intended table does not route |
| ApiServer.AdmittedPod | cmd/apiserver/main.go:61-70 | a created pod is Pending with no node, in the URL's namespace ("default" when empty), and keeps the body's name and image |
| ApiServer.AdmissionIgnoresClaimedPlacement | cmd/apiserver/main.go:65-70 | bodies that differ only in namespace, node or phase create the same pod |
| ApiServer.AdmittedNode | cmd/apiserver/main.go:127-129 | an empty status becomes Ready, any other status is kept, name and address unchanged |
| ApiServer.CreatePodHandler | cmd/apiserver/main.go:53-78 | an undecodable body or empty name gives 400 and no change; a duplicate key gives 500 and no change; otherwise 201 with the admitted pod, inserted under its key |
| ApiServer.GetPodHandler | cmd/apiserver/main.go:81-90 | 200 with the stored pod iff its key is present, 404 otherwise |
| ApiServer.ListPodsHandler | cmd/apiserver/main.go:93-101 | always 200, with exactly the stored pods of the namespace, each once |
| ApiServer.DeletePodHandler | cmd/apiserver/main.go:104-113 | 200 iff the pod exists, removing exactly its key and setting no deletion mark; 500 and no change otherwise |
| ApiServer.CreateNodeHandler | cmd/apiserver/main.go:116-137 | an undecodable body or empty name gives 400 and no change; a duplicate gives 500 and no change; otherwise 201 with the defaulted node, inserted |
| ApiServer.GetNodeHandler | cmd/apiserver/main.go:140-148 | 200 with the stored node iff it is present, 404 otherwise |
| ApiServer.ListNodesHandler | cmd/apiserver/main.go:151-158 | always 200, with every stored node once |
| ApiServer.UpdatePodHandler | pkg/api/client.go:180-207 | the PUT handler the client expects: 200 iff the pod's key exists, 404 otherwise, and the table becomes PodsAfterUpdate of the old one |
| ApiServer.UpdateNodeHandler | pkg/api/client.go:74-103 | the PUT handler the client expects: 200 iff the node exists, then replaced; 404 and no change otherwise |
| Scheduler.Bind | cmd/scheduler/main.go:59-62 | the written pod equals the listed pod except that it is bound to the node and Scheduled |
| Scheduler.Assignments | cmd/scheduler/main.go:43-74 | a cycle writes at most one pod per pending pod, and nothing at all without a ready node |
| Scheduler.AssignmentsStep | cmd/scheduler/main.go:43-74 | one more pending pod adds nothing when it is marked or no node is ready, and otherwise adds it bound to the node at the advanced cursor |
| Scheduler.SkipStep | cmd/scheduler/main.go:46-55 | a marked pod, or any pod when no node is ready, adds no write |
| Scheduler.BindStep | cmd/scheduler/main.go:56-73 | binding one more pod extends the writes by it and the table by its update |
| Scheduler.AssignmentsAreRoundRobin | cmd/scheduler/main.go:43-74 | one write per unmarked pod; the k-th is that pod bound to ready[(c0 + k) mod n]; marked pods take no turn |
| Scheduler.AssignmentsTargetReadyNodes | cmd/scheduler/main.go:56-62 | every written pod is Scheduled, carries no deletion mark and is bound to a node of the ready list, hence Ready |
| Scheduler.RoundRobinWindow | cmd/scheduler/main.go:56-57 | over any n consecutive turns the cursor selects each of the n positions exactly once |
| Scheduler.EachReadyNodeOncePerWindow | cmd/scheduler/main.go:56-57 | with a fixed list of n ready nodes, any n consecutive assignments use each node exactly once |
| Scheduler.CycleLands | cmd/scheduler/main.go:43-74 | when nothing intervenes, after a cycle the k-th unmarked pending pod is stored bound to ready[(c0 + k) mod n] and Scheduled |
| Scheduler.Scheduler.constructor | cmd/scheduler/main.go:13 | the cursor starts at 0 |
| Scheduler.Scheduler.AssignPods | cmd/scheduler/main.go:43-74 | the store ends as the given lists' Assignments applied one by one, each failure skipped, and the cursor advances by the number of assignments |
| Scheduler.Scheduler.Assign | cmd/scheduler/main.go:59-73 | one bind reaches the store as an update of the pod bound to the selected node and Scheduled; nodes are untouched |
| Scheduler.Scheduler.SchedulePods | cmd/scheduler/main.go:15-75 | lists exactly the Pending pods of "default" and the Ready nodes; with either list empty nothing changes; otherwise every unmarked pod lands on its round-robin node and the cursor advances by their number |
| Kubelet.NextPhase | cmd/kubelet/main.go:72-147 | a pod is written only when bound to this node and not in a final phase, only to Running, Deleted or Succeeded, and a marked pod only to Deleted |
| Kubelet.Advanced | cmd/kubelet/main.go:100-101 | a kubelet write changes only the phase, and keeps the pod's key |
| Kubelet.MarkedPodsOnlyGoToDeleted | cmd/kubelet/main.go:75-92 | a marked pod of this node is written Deleted unless its phase is Succeeded, Failed or Deleted, and is then left alone |
| Kubelet.UnmarkedTransitions | cmd/kubelet/main.go:97-147 | an unmarked pod is written iff it is Scheduled, Terminating or Deleting, going to Running, Deleted and Succeeded respectively |
| Kubelet.FinalPhasesAreKept | cmd/kubelet/main.go:75-147 | a pod in a final phase is never written |
| Kubelet.OneWriteSettles | cmd/kubelet/main.go:75-147 | a pod once written needs no further write |
| Kubelet.BoundPodIsStartedByItsNode | cmd/kubelet/main.go:72-101 | an unmarked pod bound by the scheduler is moved to Running by its node's kubelet and by no other |
| Kubelet.SyncWritesAreDecisions | cmd/kubelet/main.go:70-149 | every write of a pass is a listed pod of this node with only its phase changed; nothing is written Pending or Scheduled, Running only from an unmarked pod, and a marked pod only Deleted |
| Kubelet.SyncWrites | cmd/kubelet/main.go:70-149 | a pass issues at most one write per listed pod, each for this node and to Running, Deleted or Succeeded |
| Kubelet.SyncStep | cmd/kubelet/main.go:70-149 | the store after a pass equals the store after the pass over all but the last pod, followed by that pod's write when it has one |
| Kubelet.LastUntouchedBefore | cmd/kubelet/main.go:70-149 | with distinct keys, the writes for the earlier pods of a pass leave the last pod's key alone |
| Kubelet.SyncLands | cmd/kubelet/main.go:70-149 | with distinct keys, after a pass each listed pod's key holds its decided write, or its old value when it is not written |
| Kubelet.Kubelet.constructor | cmd/kubelet/main.go:23-34 | the kubelet keeps its node name and address |
| Kubelet.Kubelet.RegisterNode | cmd/kubelet/main.go:37-57 | registration succeeds iff the node name is non-empty (create or, failing that, update); the node is then stored Ready with its address, and on failure nothing changes |
| Kubelet.Kubelet.ReconcilePods | cmd/kubelet/main.go:70-149 | the store ends as the pass's decided writes applied one by one to the old store, each failure skipped |
| Kubelet.Kubelet.Write | cmd/kubelet/main.go:100-106 | one decided write reaches the store as an update of the listed pod with only its phase changed |
| Kubelet.Kubelet.SyncPods | cmd/kubelet/main.go:60-151 | lists exactly the pods of "default", each once, and leaves each holding its decided phase or, when not written, its listed value |

## Left out

- HTTP, the web framework's routing machinery and JSON encoding and decoding are not modelled. A server reply is a status code plus a decoded-or-not body. An undecodable request body is `None`. A transport failure is `NoReply`.
- Base URL parsing in the client is not modelled; `BuildURL` works on the base URL's path only.
- The store's read/write mutex is not modelled. Every store operation is one atomic step, and the model is sequential.
- Another writer between a loop's list call and its writes is not modelled. The loop methods take arbitrary lists, so the stale case is covered by their postconditions, but no concurrent interleaving is modelled.
- The `for { ...; sleep }` loops, the `main` functions and flag parsing are not modelled. One cycle or pass is one method call.
- `getHostname` in cmd/kubelet/main.go is an operating-system call and is not modelled.
- cmd/kubectl-lite/main.go (command-line parsing and printing) is not part of this model.
- pkg/store/store.go (the store interface) is not part of this model; `InMemoryStore` stands for it.
- The time value of a deletion timestamp is not modelled; only its presence is.
- Go map iteration order is not modelled. The store's list methods choose keys arbitrarily, and their postconditions fix the set and the absence of duplicates, not the order.
- Pointer aliasing is not modelled: the source stores the caller's pointer, and the model stores values.
- Scheduler.Scheduler: the cursor is an unbounded `nat`. The source's `int` could wrap after 2^63 increments, which is not modelled.
- Scheduler.Scheduler.SchedulePods and Kubelet.Kubelet.SyncPods: their list calls always get a 200 reply from the in-process handlers, so the source's early return on a list error does not arise in the model.
- Log messages are not modelled.
- Scheduler.Scheduler.SchedulePods: the loop calls the update handler directly and bypasses URL routing, so its landing postcondition also covers pod names holding a slash; over HTTP, even with the intended routes, such a name gives a seven-segment path that is answered 404 (ApiServer.SlashedPodNameIsNotRouted).
- Kubelet.Kubelet.SyncPods: the phase writes call the update handler directly and bypass URL routing, so its landing postcondition also covers pod names holding a slash, which even the intended routes answer 404 over HTTP (ApiServer.SlashedPodNameIsNotRouted).
- Kubelet.Kubelet.RegisterNode: the create and update calls go to the handlers directly and bypass URL routing, so its postcondition also covers node names holding a slash, which over HTTP even the intended routes answer 404 on update (ApiServer.SlashedNodeNameIsNotRouted).
- Unlike Kubernetes, there are no resource versions, no optimistic concurrency, no rebinding check and no soft delete, so none is modelled as behaviour.
- Kubelet.NextPhase: the source re-checks the phase against the final phases inside its Terminating and Deleting cases; that test always passes there, so the model writes those cases without it.

## Findings

| source | as written | input that shows it | evidently intended | confidence | as-written member | corrected member |
|---|---|---|---|---|---|---|
| cmd/apiserver/main.go:27-43 | The router registers no PUT route for a pod item or a node item. The client's `UpdatePod` and `UpdateNode` send PUT requests, which get the framework's default 404, and the client turns that into an error. So every scheduler bind and every kubelet phase write fails, and the kubelet's registration fallback fails too. | `PUT /api/v1/namespaces/default/pods/p1`, the request the scheduler sends to bind pod `p1`. | PUT on `/api/v1/namespaces/:namespace/pods/:podname` and `/api/v1/nodes/:nodename`, handled by the store's `UpdatePod`/`UpdateNode`, with 200 on success. The integration tests expect pods to reach Scheduled and Running (tests/integration/integration_test.go:424-443). | not executed; high | ApiServer.PodUpdateIsNotRouted | ApiServer.UpdatePodHandler |
