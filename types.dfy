/** Pod and Node records, the pod phases and the node statuses (pkg/api/types.go). */
module Types {

  /** The eight named pod phases. In the source a phase is an open string, so any other text is `Unlisted`. */
  datatype PhaseTag =
    | Pending | Scheduled | Running | Deleted | Succeeded | Failed | Deleting | Terminating
    | Unlisted(text: string)

  /** The string a phase stands for. */
  function PhaseText(p: PhaseTag): string
  {
    match p
    case Pending => "Pending"
    case Scheduled => "Scheduled"
    case Running => "Running"
    case Deleted => "Deleted"
    case Succeeded => "Succeeded"
    case Failed => "Failed"
    case Deleting => "Deleting"
    case Terminating => "Terminating"
    case Unlisted(t) => t
  }

  predicate IsNamedPhaseText(s: string)
  {
    s in {"Pending", "Scheduled", "Running", "Deleted", "Succeeded", "Failed", "Deleting", "Terminating"}
  }

  /** A phase in canonical form: the text of a named phase is always written with its constructor. */
  type PodPhase = p: PhaseTag | !(p.Unlisted? && IsNamedPhaseText(p.text)) witness Pending

  /** The empty phase, which the client reads as "no phase filter". */
  const NoPhase: PodPhase := Unlisted("")

  /** Reads a phase string, as JSON decoding of the source's string-typed phase does. */
  function ParsePhase(s: string): (p: PodPhase)
    ensures PhaseText(p) == s
  {
    if s == "Pending" then Pending
    else if s == "Scheduled" then Scheduled
    else if s == "Running" then Running
    else if s == "Deleted" then Deleted
    else if s == "Succeeded" then Succeeded
    else if s == "Failed" then Failed
    else if s == "Deleting" then Deleting
    else if s == "Terminating" then Terminating
    else Unlisted(s)
  }

  /** Every canonical phase is recovered from its text. */
  lemma PhaseTextRoundTrip(p: PodPhase)
    ensures ParsePhase(PhaseText(p)) == p
  {
  }

  /** Two phases are equal exactly when their strings are: comparing constructors is comparing the source's strings.
      In particular the eight named phases are pairwise distinct values. */
  lemma PhaseEqualityIsTextEquality(p: PodPhase, q: PodPhase)
    ensures p == q <==> PhaseText(p) == PhaseText(q)
  {
    PhaseTextRoundTrip(p);
    PhaseTextRoundTrip(q);
  }

  /** The phases the source documents as terminal: Deleted is final, Succeeded and Failed are not restarted. */
  predicate IsFinal(p: PodPhase)
  {
    p == Succeeded || p == Failed || p == Deleted
  }

  /** The two named node statuses; any other text is `UnlistedStatus`. */
  datatype StatusTag = Ready | NotReady | UnlistedStatus(text: string)

  function StatusText(s: StatusTag): string
  {
    match s
    case Ready => "Ready"
    case NotReady => "NotReady"
    case UnlistedStatus(t) => t
  }

  type NodeStatus = s: StatusTag | !(s.UnlistedStatus? && s.text in {"Ready", "NotReady"}) witness Ready

  /** The empty status, which the API server replaces by Ready and the client reads as "no status filter". */
  const NoStatus: NodeStatus := UnlistedStatus("")

  function ParseStatus(s: string): (r: NodeStatus)
    ensures StatusText(r) == s
  {
    if s == "Ready" then Ready else if s == "NotReady" then NotReady else UnlistedStatus(s)
  }

  /** Two statuses are equal exactly when their strings are; Ready and NotReady are distinct. */
  lemma StatusEqualityIsTextEquality(s: NodeStatus, t: NodeStatus)
    ensures s == t <==> StatusText(s) == StatusText(t)
  {
    assert ParseStatus(StatusText(s)) == s;
    assert ParseStatus(StatusText(t)) == t;
  }

  /** A worker machine. */
  datatype Node = Node(name: string, address: string, status: NodeStatus)

  /** A pod. `nodeName` is empty until the pod is bound; `markedForDeletion` is the presence of the
      source's deletion timestamp (its time value is not modelled). */
  datatype Pod = Pod(
    name: string,
    namespace: string,
    image: string,
    nodeName: string,
    phase: PodPhase,
    hostIP: string,
    podIP: string,
    markedForDeletion: bool)
}
