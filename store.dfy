/** The in-memory object table (pkg/store/memory.go): pods keyed by "namespace/name", nodes keyed by name. */
module Store {
  import opened Wrappers
  import opened Seqs
  import opened Types

  datatype StoreError = AlreadyExists | NotFound

  /** The pod table key: the namespace and the name joined by a slash. */
  function PodKey(namespace: string, name: string): (k: string)
    ensures |k| == |namespace| + 1 + |name| && k[|namespace|] == '/'
  {
    namespace + "/" + name
  }

  /** The key is the identity pair exactly when the namespaces hold no slash, as namespaces taken from a URL
      path segment never do. */
  lemma PodKeyInjective(ns1: string, n1: string, ns2: string, n2: string)
    requires '/' !in ns1 && '/' !in ns2
    ensures PodKey(ns1, n1) == PodKey(ns2, n2) <==> ns1 == ns2 && n1 == n2
  {
    NoSlashBeforeNamespaceEnd(ns1, n1);
    NoSlashBeforeNamespaceEnd(ns2, n2);
    var k1, k2 := PodKey(ns1, n1), PodKey(ns2, n2);
    if k1 == k2 {
      assert |ns1| == |ns2|;
      assert ns1 == k1[..|ns1|] && ns2 == k2[..|ns2|];
      assert n1 == k1[|ns1| + 1..] && n2 == k2[|ns2| + 1..];
    }
  }

  /** In the key of a slash-free namespace no slash comes before the one that ends the namespace. */
  lemma NoSlashBeforeNamespaceEnd(ns: string, n: string)
    requires '/' !in ns
    ensures forall i :: 0 <= i < |ns| ==> PodKey(ns, n)[i] != '/'
  {
    forall i | 0 <= i < |ns| ensures PodKey(ns, n)[i] != '/' {
      assert PodKey(ns, n)[i] == ns[i];
    }
  }

  /** A slash in a namespace lets two different pods share one key. */
  lemma PodKeyCollides()
    ensures PodKey("a/b", "c") == PodKey("a", "b/c")
  {
  }

  function KeyOf(pod: Pod): string
  {
    PodKey(pod.namespace, pod.name)
  }

  /** Every stored pod sits under its own key. */
  ghost predicate PodsKeyed(pods: map<string, Pod>)
  {
    forall k :: k in pods ==> KeyOf(pods[k]) == k
  }

  /** Every stored node sits under its own name. */
  ghost predicate NodesKeyed(nodes: map<string, Node>)
  {
    forall k :: k in nodes ==> nodes[k].name == k
  }

  /** The pod table after an update: the whole pod is replaced when its key exists, nothing is inserted. */
  function PodsAfterUpdate(pods: map<string, Pod>, pod: Pod): (r: map<string, Pod>)
    ensures r.Keys == pods.Keys
    ensures KeyOf(pod) in pods ==> r[KeyOf(pod)] == pod
    ensures forall k :: k in pods && k != KeyOf(pod) ==> r[k] == pods[k]
  {
    if KeyOf(pod) in pods then pods[KeyOf(pod) := pod] else pods
  }

  /** The pod table after a sequence of updates issued one after another, each failing alone when its key is absent.
      A sequence of updates never adds or removes a pod. */
  function PodsAfterUpdates(pods: map<string, Pod>, writes: seq<Pod>): (r: map<string, Pod>)
    ensures r.Keys == pods.Keys
    decreases |writes|
  {
    if writes == [] then pods
    else PodsAfterUpdate(PodsAfterUpdates(pods, writes[..|writes| - 1]), writes[|writes| - 1])
  }

  /** One more update is applied to the table the earlier ones left. */
  lemma UpdatesSnoc(pods: map<string, Pod>, writes: seq<Pod>, w: Pod)
    ensures PodsAfterUpdates(pods, writes + [w]) == PodsAfterUpdate(PodsAfterUpdates(pods, writes), w)
  {
    assert (writes + [w])[..|writes|] == writes;
  }

  /** A pod whose key no write targets keeps its stored value. */
  lemma {:induction false} UpdatesLeaveOthers(pods: map<string, Pod>, writes: seq<Pod>, k: string)
    requires k in pods
    requires forall w :: w in writes ==> KeyOf(w) != k
    ensures k in PodsAfterUpdates(pods, writes) && PodsAfterUpdates(pods, writes)[k] == pods[k]
    decreases |writes|
  {
    if writes != [] {
      var init := writes[..|writes| - 1];
      assert forall w :: w in init ==> w in writes;
      UpdatesLeaveOthers(pods, init, k);
    }
  }

  /** Updates of pods under their own keys keep every pod under its own key. */
  lemma {:induction false} UpdatesKeepKeyed(pods: map<string, Pod>, writes: seq<Pod>)
    requires PodsKeyed(pods)
    ensures PodsKeyed(PodsAfterUpdates(pods, writes))
    decreases |writes|
  {
    if writes != [] {
      UpdatesKeepKeyed(pods, writes[..|writes| - 1]);
    }
  }

  /** No two pods of the sequence share a key. */
  predicate DistinctKeys(s: seq<Pod>)
  {
    forall i, j :: 0 <= i < j < |s| ==> KeyOf(s[i]) != KeyOf(s[j])
  }

  /** Distinct pods, each stored under its own key, have distinct keys. */
  lemma HeldPodsHaveDistinctKeys(pods: map<string, Pod>, s: seq<Pod>)
    requires forall p :: p in s ==> KeyOf(p) in pods && pods[KeyOf(p)] == p
    requires Distinct(s)
    ensures DistinctKeys(s)
  {
    forall i, j | 0 <= i < j < |s| ensures KeyOf(s[i]) != KeyOf(s[j]) {
      assert s[i] in s && s[j] in s;
    }
  }

  /** When the writes target distinct stored keys, each write is what its key finally holds. */
  lemma {:induction false} UpdatesLand(pods: map<string, Pod>, writes: seq<Pod>, i: nat)
    requires forall w :: w in writes ==> KeyOf(w) in pods
    requires DistinctKeys(writes)
    requires i < |writes|
    ensures KeyOf(writes[i]) in PodsAfterUpdates(pods, writes)
    ensures PodsAfterUpdates(pods, writes)[KeyOf(writes[i])] == writes[i]
    decreases |writes|
  {
    var init := writes[..|writes| - 1];
    assert forall w :: w in init ==> w in writes;
    if i < |writes| - 1 {
      UpdatesLand(pods, init, i);
    }
  }

  class InMemoryStore {
    var pods: map<string, Pod>
    var nodes: map<string, Node>

    ghost predicate Valid()
      reads this
    {
      PodsKeyed(pods) && NodesKeyed(nodes)
    }

    /** `pod` is the value stored under its own key. */
    predicate HoldsPod(pod: Pod)
      reads this
    {
      KeyOf(pod) in pods && pods[KeyOf(pod)] == pod
    }

    /** `node` is the value stored under its name. */
    predicate HoldsNode(node: Node)
      reads this
    {
      node.name in nodes && nodes[node.name] == node
    }

    constructor ()
      ensures Valid()
      ensures pods == map[] && nodes == map[]
    {
      pods := map[];
      nodes := map[];
    }

    /** Inserts a pod under an absent key; a present key is an error and changes nothing. */
    method CreatePod(pod: Pod) returns (r: Outcome<StoreError>)
      requires Valid()
      modifies this
      ensures Valid() && nodes == old(nodes)
      ensures r.Pass? <==> KeyOf(pod) !in old(pods)
      ensures r.Pass? ==> pods == old(pods)[KeyOf(pod) := pod]
      ensures r.Fail? ==> r.error == AlreadyExists && pods == old(pods)
    {
      var key := PodKey(pod.namespace, pod.name);
      if key in pods {
        return Fail(AlreadyExists);
      }
      pods := pods[key := pod];
      return Pass;
    }

    /** Returns the pod stored under "namespace/name", or NotFound. */
    method GetPod(namespace: string, name: string) returns (r: Result<Pod, StoreError>)
      requires Valid()
      ensures r.Ok? <==> PodKey(namespace, name) in pods
      ensures r.Ok? ==> r.value == pods[PodKey(namespace, name)] && HoldsPod(r.value)
      ensures r.Ok? && '/' !in namespace && '/' !in r.value.namespace ==>
                r.value.namespace == namespace && r.value.name == name
      ensures r.Err? ==> r.error == NotFound
    {
      var key := PodKey(namespace, name);
      if key !in pods {
        return Err(NotFound);
      }
      r := Ok(pods[key]);
      if '/' !in namespace && '/' !in r.value.namespace {
        PodKeyInjective(namespace, name, r.value.namespace, r.value.name);
      }
    }

    /** Replaces the whole pod stored under the pod's key, with no further check; an absent key is an error
        and inserts nothing. */
    method UpdatePod(pod: Pod) returns (r: Outcome<StoreError>)
      requires Valid()
      modifies this
      ensures Valid() && nodes == old(nodes)
      ensures r.Pass? <==> KeyOf(pod) in old(pods)
      ensures r.Fail? ==> r.error == NotFound
      ensures pods == PodsAfterUpdate(old(pods), pod)
    {
      var key := PodKey(pod.namespace, pod.name);
      if key !in pods {
        return Fail(NotFound);
      }
      pods := pods[key := pod];
      return Pass;
    }

    /** Removes exactly the key "namespace/name"; an absent key is an error and changes nothing. */
    method DeletePod(namespace: string, name: string) returns (r: Outcome<StoreError>)
      requires Valid()
      modifies this
      ensures Valid() && nodes == old(nodes)
      ensures r.Pass? <==> PodKey(namespace, name) in old(pods)
      ensures r.Pass? ==> pods == old(pods) - {PodKey(namespace, name)}
      ensures r.Fail? ==> r.error == NotFound && pods == old(pods)
    {
      var key := PodKey(namespace, name);
      if key !in pods {
        return Fail(NotFound);
      }
      pods := pods - {key};
      return Pass;
    }

    /** The stored pods of one namespace, each exactly once, in an unspecified order. */
    method ListPods(namespace: string) returns (result: seq<Pod>)
      requires Valid()
      ensures forall p :: p in result <==> HoldsPod(p) && p.namespace == namespace
      ensures Distinct(result)
    {
      result := [];
      var unvisited := pods.Keys;
      while unvisited != {}
        invariant unvisited <= pods.Keys
        invariant forall p :: p in result ==> HoldsPod(p) && p.namespace == namespace && KeyOf(p) !in unvisited
        invariant forall k :: k in pods && k !in unvisited && pods[k].namespace == namespace ==> pods[k] in result
        invariant Distinct(result)
        decreases unvisited
      {
        var key :| key in unvisited;
        if pods[key].namespace == namespace {
          result := result + [pods[key]];
        }
        unvisited := unvisited - {key};
      }
    }

    /** Inserts a node under an absent name; a present name is an error and changes nothing. */
    method CreateNode(node: Node) returns (r: Outcome<StoreError>)
      requires Valid()
      modifies this
      ensures Valid() && pods == old(pods)
      ensures r.Pass? <==> node.name !in old(nodes)
      ensures r.Pass? ==> nodes == old(nodes)[node.name := node]
      ensures r.Fail? ==> r.error == AlreadyExists && nodes == old(nodes)
    {
      if node.name in nodes {
        return Fail(AlreadyExists);
      }
      nodes := nodes[node.name := node];
      return Pass;
    }

    /** Returns the node stored under `name`, or NotFound. */
    method GetNode(name: string) returns (r: Result<Node, StoreError>)
      requires Valid()
      ensures r.Ok? <==> name in nodes
      ensures r.Ok? ==> r.value == nodes[name] && r.value.name == name
      ensures r.Err? ==> r.error == NotFound
    {
      if name !in nodes {
        return Err(NotFound);
      }
      return Ok(nodes[name]);
    }

    /** Replaces the node stored under its name; an absent name is an error and inserts nothing. */
    method UpdateNode(node: Node) returns (r: Outcome<StoreError>)
      requires Valid()
      modifies this
      ensures Valid() && pods == old(pods)
      ensures r.Pass? <==> node.name in old(nodes)
      ensures r.Pass? ==> nodes == old(nodes)[node.name := node]
      ensures r.Fail? ==> r.error == NotFound && nodes == old(nodes)
    {
      if node.name !in nodes {
        return Fail(NotFound);
      }
      nodes := nodes[node.name := node];
      return Pass;
    }

    /** Removes exactly the node `name`; an absent name is an error and changes nothing. */
    method DeleteNode(name: string) returns (r: Outcome<StoreError>)
      requires Valid()
      modifies this
      ensures Valid() && pods == old(pods)
      ensures r.Pass? <==> name in old(nodes)
      ensures r.Pass? ==> nodes == old(nodes) - {name}
      ensures r.Fail? ==> r.error == NotFound && nodes == old(nodes)
    {
      if name !in nodes {
        return Fail(NotFound);
      }
      nodes := nodes - {name};
      return Pass;
    }

    /** Every stored node exactly once, in an unspecified order. */
    method ListNodes() returns (result: seq<Node>)
      requires Valid()
      ensures forall n :: n in result <==> HoldsNode(n)
      ensures Distinct(result)
    {
      result := [];
      var unvisited := nodes.Keys;
      while unvisited != {}
        invariant unvisited <= nodes.Keys
        invariant forall n :: n in result ==> HoldsNode(n) && n.name !in unvisited
        invariant forall k :: k in nodes && k !in unvisited ==> nodes[k] in result
        invariant Distinct(result)
        decreases unvisited
      {
        var name :| name in unvisited;
        result := result + [nodes[name]];
        unvisited := unvisited - {name};
      }
    }
  }
}
