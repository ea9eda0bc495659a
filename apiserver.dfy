/** The API server's request handling (cmd/apiserver/main.go) without the web framework: the route table,
    the validation and defaulting done by each handler, and the mapping of store results to status codes. */
module ApiServer {
  import opened Wrappers
  import opened Types
  import opened Store
  import opened Client

  const DefaultNamespace := "default"

  const StatusBadRequest := 400
  const StatusNotFound := 404
  const StatusServerError := 500

  /** The framework answers a request that matches no registered route with 404. */
  const NoRouteStatus := StatusNotFound

  datatype Verb = Get | Post | Put | Delete

  datatype Endpoint =
    | CreatePodAt(namespace: string)
    | ListPodsAt(namespace: string)
    | GetPodAt(namespace: string, name: string)
    | DeletePodAt(namespace: string, name: string)
    | CreateNodeAt
    | ListNodesAt
    | GetNodeAt(name: string)
    | UpdatePodAt(namespace: string, name: string)
    | UpdateNodeAt(name: string)

  /** A path parameter such as `:namespace` matches one non-empty segment. */
  predicate IsPodsCollection(segments: seq<string>)
  {
    |segments| == 5 && segments[..3] == ["api", "v1", "namespaces"] && segments[3] != "" && segments[4] == "pods"
  }

  predicate IsPodItem(segments: seq<string>)
  {
    && |segments| == 6 && segments[..3] == ["api", "v1", "namespaces"] && segments[3] != ""
    && segments[4] == "pods" && segments[5] != ""
  }

  predicate IsNodesCollection(segments: seq<string>)
  {
    segments == ["api", "v1", "nodes"]
  }

  predicate IsNodeItem(segments: seq<string>)
  {
    |segments| == 4 && segments[..3] == ["api", "v1", "nodes"] && segments[3] != ""
  }

  /** The routes the server registers, as written: no PUT route at all. */
  function Route(verb: Verb, segments: seq<string>): (r: Option<Endpoint>)
    ensures verb == Put ==> r == None
    ensures r.Some? ==> !r.value.UpdatePodAt? && !r.value.UpdateNodeAt?
  {
    if IsPodsCollection(segments) then
      (match verb
       case Post => Some(CreatePodAt(segments[3]))
       case Get => Some(ListPodsAt(segments[3]))
       case _ => None)
    else if IsPodItem(segments) then
      (match verb
       case Get => Some(GetPodAt(segments[3], segments[5]))
       case Delete => Some(DeletePodAt(segments[3], segments[5]))
       case _ => None)
    else if IsNodesCollection(segments) then
      (match verb
       case Post => Some(CreateNodeAt)
       case Get => Some(ListNodesAt)
       case _ => None)
    else if IsNodeItem(segments) then
      (match verb
       case Get => Some(GetNodeAt(segments[3]))
       case _ => None)
    else None
  }

  /** The route table the client is written against: the registered routes plus PUT on a pod and on a node. */
  function IntendedRoute(verb: Verb, segments: seq<string>): (r: Option<Endpoint>)
    ensures verb != Put ==> r == Route(verb, segments)
    ensures verb == Put ==> (r.Some? <==> IsPodItem(segments) || IsNodeItem(segments))
  {
    if verb == Put && IsPodItem(segments) then Some(UpdatePodAt(segments[3], segments[5]))
    else if verb == Put && IsNodeItem(segments) then Some(UpdateNodeAt(segments[3]))
    else Route(verb, segments)
  }

  /** The path the client's pod update and pod get both use, from a base URL with an empty path. */
  function PodItemPath(namespace: string, name: string): string
  {
    JoinPath(["api", "v1", "namespaces", namespace, "pods", name])
  }

  function NodeItemPath(name: string): string
  {
    JoinPath(["api", "v1", "nodes", name])
  }

  /** The router sees the pod item path as its six segments. */
  lemma PodItemSegments(namespace: string, name: string)
    requires '/' !in namespace && '/' !in name
    ensures SplitPath(PodItemPath(namespace, name)) == ["api", "v1", "namespaces", namespace, "pods", name]
  {
    SplitJoinRoundTrip(["api", "v1", "namespaces", namespace, "pods", name]);
  }

  /** The router sees the node item path as its four segments. */
  lemma NodeItemSegments(name: string)
    requires '/' !in name
    ensures SplitPath(NodeItemPath(name)) == ["api", "v1", "nodes", name]
  {
    SplitJoinRoundTrip(["api", "v1", "nodes", name]);
  }

  /** As written, the path the client's pod update is sent to is routed for GET but not for PUT, so the update
      is answered 404 and the client reports a failure. */
  lemma PodUpdateIsNotRouted(namespace: string, name: string)
    requires namespace != "" && name != "" && '/' !in namespace && '/' !in name
    ensures Route(Get, SplitPath(PodItemPath(namespace, name))) == Some(GetPodAt(namespace, name))
    ensures Route(Put, SplitPath(PodItemPath(namespace, name))) == None
    ensures UpdateResult<Pod>(Reply(NoRouteStatus, None)) == Fail(UnexpectedStatus(404))
  {
    PodItemSegments(namespace, name);
  }

  /** As written, the node update the kubelet falls back on is likewise routed for GET only. */
  lemma NodeUpdateIsNotRouted(name: string)
    requires name != "" && '/' !in name
    ensures Route(Get, SplitPath(NodeItemPath(name))) == Some(GetNodeAt(name))
    ensures Route(Put, SplitPath(NodeItemPath(name))) == None
  {
    NodeItemSegments(name);
  }

  /** With the intended routes both updates reach a handler. */
  lemma UpdatesAreRoutedAsIntended(namespace: string, name: string, nodeName: string)
    requires namespace != "" && name != "" && nodeName != ""
    requires '/' !in namespace && '/' !in name && '/' !in nodeName
    ensures IntendedRoute(Put, SplitPath(PodItemPath(namespace, name))) == Some(UpdatePodAt(namespace, name))
    ensures IntendedRoute(Put, SplitPath(NodeItemPath(nodeName))) == Some(UpdateNodeAt(nodeName))
  {
    PodItemSegments(namespace, name);
    NodeItemSegments(nodeName);
  }

  /** Even with the intended routes, an update of a pod whose name holds a slash is not routed: its path has
      one segment too many for the pod item route. */
  lemma SlashedPodNameIsNotRouted(namespace: string, a: string, b: string)
    requires '/' !in namespace && '/' !in a && '/' !in b
    ensures IntendedRoute(Put, SplitPath(PodItemPath(namespace, a + "/" + b))) == None
  {
    var segs := ["api", "v1", "namespaces", namespace, "pods"];
    assert (segs + [a, b])[..6] == segs + [a];
    assert (segs + [a])[..5] == segs;
    assert ["api", "v1", "namespaces", namespace, "pods", a + "/" + b][..5] == segs;
    assert PodItemPath(namespace, a + "/" + b) == JoinPath(segs + [a, b]);
    SplitJoinRoundTrip(segs + [a, b]);
  }

  /** Likewise for a node whose name holds a slash. */
  lemma SlashedNodeNameIsNotRouted(a: string, b: string)
    requires '/' !in a && '/' !in b
    ensures IntendedRoute(Put, SplitPath(NodeItemPath(a + "/" + b))) == None
  {
    var segs := ["api", "v1", "nodes"];
    assert (segs + [a, b])[..4] == segs + [a];
    assert (segs + [a])[..3] == segs;
    assert ["api", "v1", "nodes", a + "/" + b][..3] == segs;
    assert NodeItemPath(a + "/" + b) == JoinPath(segs + [a, b]);
    SplitJoinRoundTrip(segs + [a, b]);
  }

  /** The pod a create request stores: namespace from the URL ("default" when empty), phase Pending, no node. */
  function AdmittedPod(body: Pod, namespace: string): (r: Pod)
    ensures r.phase == Pending && r.nodeName == ""
    ensures r.namespace == if namespace == "" then DefaultNamespace else namespace
    ensures r.name == body.name && r.image == body.image && r.markedForDeletion == body.markedForDeletion
  {
    body.(namespace := if namespace == "" then DefaultNamespace else namespace, phase := Pending, nodeName := "")
  }

  /** Whatever placement the request body claims (namespace, node, phase) does not reach the store. */
  lemma AdmissionIgnoresClaimedPlacement(b1: Pod, b2: Pod, namespace: string)
    requires b1.(namespace := "", nodeName := "", phase := Pending) == b2.(namespace := "", nodeName := "", phase := Pending)
    ensures AdmittedPod(b1, namespace) == AdmittedPod(b2, namespace)
  {
  }

  /** The node a create request stores: an empty status becomes Ready, any other status is kept. */
  function AdmittedNode(body: Node): (r: Node)
    ensures r.name == body.name && r.address == body.address
    ensures body.status == NoStatus ==> r.status == Ready
    ensures body.status != NoStatus ==> r.status == body.status
  {
    if body.status == NoStatus then body.(status := Ready) else body
  }

  /** POST on a namespace's pods. `body` is None when the request body does not decode. */
  method CreatePodHandler(store: InMemoryStore, namespace: string, body: Option<Pod>)
    returns (code: int, created: Option<Pod>)
    requires store.Valid()
    modifies store
    ensures store.Valid() && store.nodes == old(store.nodes)
    ensures body.None? || body.value.name == "" ==>
              code == StatusBadRequest && created == None && store.pods == old(store.pods)
    ensures body.Some? && body.value.name != "" ==>
              var pod := AdmittedPod(body.value, namespace);
              if KeyOf(pod) in old(store.pods) then
                code == StatusServerError && created == None && store.pods == old(store.pods)
              else
                code == StatusCreated && created == Some(pod) && store.pods == old(store.pods)[KeyOf(pod) := pod]
  {
    if body.None? {
      return StatusBadRequest, None;
    }
    var pod := body.value;
    if pod.name == "" {
      return StatusBadRequest, None;
    }
    pod := pod.(namespace := namespace);
    if pod.namespace == "" {
      pod := pod.(namespace := DefaultNamespace);
    }
    pod := pod.(phase := Pending);
    pod := pod.(nodeName := "");
    var r := store.CreatePod(pod);
    if r.Fail? {
      return StatusServerError, None;
    }
    return StatusCreated, Some(pod);
  }

  /** GET on one pod: 200 with the stored pod, or 404 when absent. */
  method GetPodHandler(store: InMemoryStore, namespace: string, name: string) returns (code: int, pod: Option<Pod>)
    requires store.Valid()
    ensures code == StatusOK <==> PodKey(namespace, name) in store.pods
    ensures code != StatusOK ==> code == StatusNotFound && pod == None
    ensures code == StatusOK ==> pod == Some(store.pods[PodKey(namespace, name)])
  {
    var r := store.GetPod(namespace, name);
    if r.Err? {
      return StatusNotFound, None;
    }
    return StatusOK, Some(r.value);
  }

  /** GET on a namespace's pods: always 200, with the stored pods of that namespace, each once. */
  method ListPodsHandler(store: InMemoryStore, namespace: string) returns (code: int, pods: seq<Pod>)
    requires store.Valid()
    ensures code == StatusOK
    ensures forall p :: p in pods <==> store.HoldsPod(p) && p.namespace == namespace
    ensures Seqs.Distinct(pods)
  {
    pods := store.ListPods(namespace);
    code := StatusOK;
  }

  /** DELETE on one pod: removes it outright (no deletion mark is set) with 200, or 500 when absent. */
  method DeletePodHandler(store: InMemoryStore, namespace: string, name: string) returns (code: int)
    requires store.Valid()
    modifies store
    ensures store.Valid() && store.nodes == old(store.nodes)
    ensures code == StatusOK <==> PodKey(namespace, name) in old(store.pods)
    ensures code == StatusOK ==> store.pods == old(store.pods) - {PodKey(namespace, name)}
    ensures code != StatusOK ==> code == StatusServerError && store.pods == old(store.pods)
  {
    var r := store.DeletePod(namespace, name);
    if r.Fail? {
      return StatusServerError;
    }
    return StatusOK;
  }

  /** POST on the nodes. `body` is None when the request body does not decode. */
  method CreateNodeHandler(store: InMemoryStore, body: Option<Node>) returns (code: int, created: Option<Node>)
    requires store.Valid()
    modifies store
    ensures store.Valid() && store.pods == old(store.pods)
    ensures body.None? || body.value.name == "" ==>
              code == StatusBadRequest && created == None && store.nodes == old(store.nodes)
    ensures body.Some? && body.value.name != "" ==>
              var node := AdmittedNode(body.value);
              if node.name in old(store.nodes) then
                code == StatusServerError && created == None && store.nodes == old(store.nodes)
              else
                code == StatusCreated && created == Some(node) && store.nodes == old(store.nodes)[node.name := node]
  {
    if body.None? {
      return StatusBadRequest, None;
    }
    var node := body.value;
    if node.name == "" {
      return StatusBadRequest, None;
    }
    if node.status == NoStatus {
      node := node.(status := Ready);
    }
    var r := store.CreateNode(node);
    if r.Fail? {
      return StatusServerError, None;
    }
    return StatusCreated, Some(node);
  }

  /** GET on one node: 200 with the stored node, or 404 when absent. */
  method GetNodeHandler(store: InMemoryStore, name: string) returns (code: int, node: Option<Node>)
    requires store.Valid()
    ensures code == StatusOK <==> name in store.nodes
    ensures code != StatusOK ==> code == StatusNotFound && node == None
    ensures code == StatusOK ==> node == Some(store.nodes[name])
  {
    var r := store.GetNode(name);
    if r.Err? {
      return StatusNotFound, None;
    }
    return StatusOK, Some(r.value);
  }

  /** GET on the nodes: always 200, with every stored node once. */
  method ListNodesHandler(store: InMemoryStore) returns (code: int, nodes: seq<Node>)
    requires store.Valid()
    ensures code == StatusOK
    ensures forall n :: n in nodes <==> store.HoldsNode(n)
    ensures Seqs.Distinct(nodes)
  {
    nodes := store.ListNodes();
    code := StatusOK;
  }

  /** The PUT handler the client is written against (absent from the source): hands the decoded pod to the
      store's update, 200 when it was stored, 404 when its key is absent. */
  method UpdatePodHandler(store: InMemoryStore, pod: Pod) returns (code: int)
    requires store.Valid()
    modifies store
    ensures store.Valid() && store.nodes == old(store.nodes)
    ensures code == StatusOK <==> KeyOf(pod) in old(store.pods)
    ensures code != StatusOK ==> code == StatusNotFound
    ensures store.pods == PodsAfterUpdate(old(store.pods), pod)
  {
    var r := store.UpdatePod(pod);
    if r.Fail? {
      return StatusNotFound;
    }
    return StatusOK;
  }

  /** The PUT handler on a node the client is written against (absent from the source). */
  method UpdateNodeHandler(store: InMemoryStore, node: Node) returns (code: int)
    requires store.Valid()
    modifies store
    ensures store.Valid() && store.pods == old(store.pods)
    ensures code == StatusOK <==> node.name in old(store.nodes)
    ensures code == StatusOK ==> store.nodes == old(store.nodes)[node.name := node]
    ensures code != StatusOK ==> code == StatusNotFound && store.nodes == old(store.nodes)
  {
    var r := store.UpdateNode(node);
    if r.Fail? {
      return StatusNotFound;
    }
    return StatusOK;
  }
}
