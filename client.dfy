/** The API client (pkg/api/client.go) without its HTTP transport: URL building, the status checks on each
    reply, and the client-side phase and status filters. A reply is a parameter standing for what the server
    sent back. */
module Client {
  import opened Wrappers
  import opened Seqs
  import opened Types

  datatype ClientError = TransportFailed | UnexpectedStatus(code: int) | Undecodable | EmptyNodeName

  /** What came back for one request: nothing (the request itself failed), or a status code and a body that
      decoded (`Some`) or did not (`None`). */
  datatype Reply<T> = NoReply | Reply(code: int, body: Option<T>)

  const StatusOK := 200
  const StatusCreated := 201

  /** Each segment appended as "/" + segment, in order. */
  function JoinPath(segments: seq<string>): string
  {
    if segments == [] then ""
    else JoinPath(segments[..|segments| - 1]) + "/" + segments[|segments| - 1]
  }

  /** The URL path for a request: the base path followed by "/" + segment for every segment, in order. */
  method BuildURL(basePath: string, segments: seq<string>) returns (path: string)
    ensures path == basePath + JoinPath(segments)
  {
    path := basePath;
    for i := 0 to |segments|
      invariant path == basePath + JoinPath(segments[..i])
    {
      assert segments[..i + 1][..i] == segments[..i];
      path := path + "/" + segments[i];
    }
    assert segments[..|segments|] == segments;
  }

  /** Length of the leading run of characters before the first slash. */
  function SegmentEnd(s: string): (i: nat)
    ensures i <= |s|
    ensures forall j :: 0 <= j < i ==> s[j] != '/'
    ensures i < |s| ==> s[i] == '/'
  {
    if s == [] || s[0] == '/' then 0 else 1 + SegmentEnd(s[1..])
  }

  /** The segments of a path that starts with a slash, as a router splits it: no segment holds a slash. */
  function SplitPath(p: string): (r: seq<string>)
    ensures forall i :: 0 <= i < |r| ==> '/' !in r[i]
    decreases |p|
  {
    if p == [] then []
    else
      var rest := p[1..];
      var i := SegmentEnd(rest);
      [rest[..i]] + SplitPath(rest[i..])
  }

  lemma {:induction false} JoinPathCons(x: string, s: seq<string>)
    ensures JoinPath([x] + s) == "/" + x + JoinPath(s)
    decreases |s|
  {
    if s != [] {
      var init := s[..|s| - 1];
      assert ([x] + s)[..|s|] == [x] + init;
      JoinPathCons(x, init);
    }
  }

  lemma {:induction false} SegmentEndOfSlashFree(x: string, t: string)
    requires '/' !in x
    requires t == [] || t[0] == '/'
    ensures SegmentEnd(x + t) == |x|
    decreases |x|
  {
    if x != [] {
      assert (x + t)[1..] == x[1..] + t;
      SegmentEndOfSlashFree(x[1..], t);
    }
  }

  lemma JoinPathStartsWithSlash(s: seq<string>)
    ensures JoinPath(s) == [] || JoinPath(s)[0] == '/'
  {
    if s != [] {
      JoinPathCons(s[0], s[1..]);
      assert [s[0]] + s[1..] == s;
    }
  }

  /** Splitting a joined path gives back its segments when no segment holds a slash. */
  lemma {:induction false} SplitJoinRoundTrip(segments: seq<string>)
    requires forall i :: 0 <= i < |segments| ==> '/' !in segments[i]
    ensures SplitPath(JoinPath(segments)) == segments
    decreases |segments|
  {
    if segments != [] {
      var x, tail := segments[0], segments[1..];
      assert [x] + tail == segments;
      JoinPathCons(x, tail);
      var p := JoinPath(segments);
      var t := JoinPath(tail);
      assert p[1..] == x + t;
      JoinPathStartsWithSlash(tail);
      SegmentEndOfSlashFree(x, t);
      assert (x + t)[..|x|] == x && (x + t)[|x|..] == t;
      SplitJoinRoundTrip(tail);
    }
  }

  /** The reply of a create request is a success only with status 201 and a decodable body. */
  function CreateNodeResult(reply: Reply<Node>): (r: Result<Node, ClientError>)
    ensures r.Ok? <==> reply.Reply? && reply.code == StatusCreated && reply.body.Some?
    ensures r.Ok? ==> r.value == reply.body.value
    ensures reply.Reply? && reply.code != StatusCreated ==> r == Err(UnexpectedStatus(reply.code))
  {
    match reply
    case NoReply => Err(TransportFailed)
    case Reply(code, body) =>
      if code != StatusCreated then Err(UnexpectedStatus(code))
      else if body.None? then Err(Undecodable)
      else Ok(body.value)
  }

  /** The reply of an update request is a success only with status 200; its body is not read. */
  function UpdateResult<T>(reply: Reply<T>): (r: Outcome<ClientError>)
    ensures r.Pass? <==> reply.Reply? && reply.code == StatusOK
  {
    match reply
    case NoReply => Fail(TransportFailed)
    case Reply(code, _) => if code != StatusOK then Fail(UnexpectedStatus(code)) else Pass
  }

  /** The path of a node update; an empty node name is refused before any request is made. */
  method UpdateNodePath(basePath: string, node: Node) returns (r: Result<string, ClientError>)
    ensures r.Err? <==> node.name == ""
    ensures r.Err? ==> r.error == EmptyNodeName
    ensures r.Ok? ==> r.value == basePath + JoinPath(["api", "v1", "nodes", node.name])
  {
    if node.name == "" {
      return Err(EmptyNodeName);
    }
    var path := BuildURL(basePath, ["api", "v1", "nodes", node.name]);
    return Ok(path);
  }

  function HasPhase(phase: PodPhase): Pod -> bool
  {
    (p: Pod) => p.phase == phase
  }

  function HasStatus(status: NodeStatus): Node -> bool
  {
    (n: Node) => n.status == status
  }

  /** The pods a list call returns: all of them for the empty phase, otherwise those in `phase`, in order. */
  function SelectPods(pods: seq<Pod>, phase: PodPhase): seq<Pod>
  {
    if phase == NoPhase then pods else Filter(pods, HasPhase(phase))
  }

  /** The nodes a list call returns: all of them for the empty status, otherwise those with `status`, in order. */
  function SelectNodes(nodes: seq<Node>, status: NodeStatus): seq<Node>
  {
    if status == NoStatus then nodes else Filter(nodes, HasStatus(status))
  }

  /** A non-empty phase selects exactly the listed pods in that phase, each as often as listed, in their order. */
  lemma SelectPodsExactly(pods: seq<Pod>, phase: PodPhase, p: Pod)
    requires phase != NoPhase
    ensures p in SelectPods(pods, phase) <==> p in pods && p.phase == phase
    ensures multiset(SelectPods(pods, phase))[p] == if p.phase == phase then multiset(pods)[p] else 0
    ensures Embeds(KeptPositions(pods, HasPhase(phase)), SelectPods(pods, phase), pods)
  {
    FilterMembers(pods, HasPhase(phase), p);
    FilterCounts(pods, HasPhase(phase), p);
    FilterPreservesOrder(pods, HasPhase(phase));
  }

  /** A non-empty status selects exactly the listed nodes with that status, each as often as listed, in their order. */
  lemma SelectNodesExactly(nodes: seq<Node>, status: NodeStatus, n: Node)
    requires status != NoStatus
    ensures n in SelectNodes(nodes, status) <==> n in nodes && n.status == status
    ensures multiset(SelectNodes(nodes, status))[n] == if n.status == status then multiset(nodes)[n] else 0
    ensures Embeds(KeptPositions(nodes, HasStatus(status)), SelectNodes(nodes, status), nodes)
  {
    FilterMembers(nodes, HasStatus(status), n);
    FilterCounts(nodes, HasStatus(status), n);
    FilterPreservesOrder(nodes, HasStatus(status));
  }

  /** Lists pods: a success only with status 200 and a decodable body, then filtered by phase on the client. */
  method ListPods(reply: Reply<seq<Pod>>, phase: PodPhase) returns (r: Result<seq<Pod>, ClientError>)
    ensures r.Ok? <==> reply.Reply? && reply.code == StatusOK && reply.body.Some?
    ensures r.Ok? ==> r.value == SelectPods(reply.body.value, phase)
    ensures r.Ok? && phase == NoPhase ==> r.value == reply.body.value
    ensures r.Ok? && phase != NoPhase ==>
              forall p :: p in r.value <==> p in reply.body.value && p.phase == phase
  {
    if reply.NoReply? {
      return Err(TransportFailed);
    }
    if reply.code != StatusOK {
      return Err(UnexpectedStatus(reply.code));
    }
    if reply.body.None? {
      return Err(Undecodable);
    }
    var all := reply.body.value;
    if phase == NoPhase {
      return Ok(all);
    }
    var filtered := [];
    for i := 0 to |all|
      invariant filtered == Filter(all[..i], HasPhase(phase))
    {
      assert all[..i + 1][..i] == all[..i];
      if all[i].phase == phase {
        filtered := filtered + [all[i]];
      }
    }
    assert all[..|all|] == all;
    forall p ensures p in filtered <==> p in all && p.phase == phase {
      FilterMembers(all, HasPhase(phase), p);
    }
    return Ok(filtered);
  }

  /** Lists nodes: a success only with status 200 and a decodable body, then filtered by status on the client. */
  method ListNodes(reply: Reply<seq<Node>>, status: NodeStatus) returns (r: Result<seq<Node>, ClientError>)
    ensures r.Ok? <==> reply.Reply? && reply.code == StatusOK && reply.body.Some?
    ensures r.Ok? ==> r.value == SelectNodes(reply.body.value, status)
    ensures r.Ok? && status == NoStatus ==> r.value == reply.body.value
    ensures r.Ok? && status != NoStatus ==>
              forall n :: n in r.value <==> n in reply.body.value && n.status == status
  {
    if reply.NoReply? {
      return Err(TransportFailed);
    }
    if reply.code != StatusOK {
      return Err(UnexpectedStatus(reply.code));
    }
    if reply.body.None? {
      return Err(Undecodable);
    }
    var all := reply.body.value;
    if status == NoStatus {
      return Ok(all);
    }
    var filtered := [];
    for i := 0 to |all|
      invariant filtered == Filter(all[..i], HasStatus(status))
    {
      assert all[..i + 1][..i] == all[..i];
      if all[i].status == status {
        filtered := filtered + [all[i]];
      }
    }
    assert all[..|all|] == all;
    forall n ensures n in filtered <==> n in all && n.status == status {
      FilterMembers(all, HasStatus(status), n);
    }
    return Ok(filtered);
  }
}
