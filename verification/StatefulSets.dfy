/**
 One reconcile of a StatefulSet's pods, as a machine that issues one API call at a time.

 `Start` picks the first call from what the reconcile read beforehand, `Step` turns the reply to
 the pending call into the next one, and `Drive` runs the machine against a stream of replies.
 Every call may fail; the replies are unconstrained, so what is proved about `Drive` holds
 whatever the API server and the Splunk instances answer.
 */
module StatefulSets {
  import opened Names

  datatype Phase = Pending | Ready | Updating | ScalingUp | ScalingDown | Terminating | Error

  /** `uid` and `version` identify a stored pod; `revision` is its controller-revision-hash label. */
  datatype Pod = Pod(uid: nat, version: nat, running: bool, containers: seq<bool>, revision: string)

  predicate PodReady(pod: Pod) {
    pod.running && pod.containers != [] && pod.containers[0]
  }

  /** Which pod manager drives the StatefulSet. */
  datatype Kind = Plain | Indexer | SearchHead

  /** What the operator last read about an indexer peer or a search head. */
  datatype Member = Member(name: string, id: string, status: string, historicalSearches: nat, realtimeSearches: nat)

  datatype Template = Template(namespace: string, name: string)

  datatype Claim = Claim(namespace: string, name: string)

  function ClaimOf(t: Template, statefulSet: string, n: nat): Claim {
    Claim(t.namespace, ClaimName(t.name, statefulSet, n))
  }

  /** Everything a reconcile has read before it looks at the pods. */
  datatype View = View(
    kind: Kind,
    name: string,
    templates: seq<Template>,
    replicas: nat,
    readyReplicas: nat,
    revision: string,
    desired: nat,
    members: seq<Member>)
  {
    /** The ordinals to be visited index the member list (see MemberStatus). */
    predicate Listed() {
      kind.Plain? || readyReplicas <= |members|
    }
  }

  datatype Call =
    | GetPod(n: nat)
    | DeletePod(n: nat, uid: nat, version: nat)
    | UpdateReplicas(replicas: nat)
    | GetClaim(claim: Claim)
    | DeleteClaim(claim: Claim)
    | Decommission(n: nat, enforceCounts: bool)
    | RemovePeer(id: string)
    | SetDetention(n: nat, detained: bool)
    | RemoveMember(n: nat)
    | RemoveUnwantedSecrets

  datatype Reply = Ok | Found(pod: Pod) | Failed

  /** A pod manager's answer: settled from the member list, an error, or one request and "not yet". */
  datatype Answer = Settled(complete: bool) | Unhandled | Request(call: Call)

  /** decommission: the indexer manager's way of taking a peer out of service. */
  function DecommissionAnswer(m: Member, n: nat, enforceCounts: bool): Answer {
    if m.status == "Up" then Request(Decommission(n, enforceCounts))
    else if m.status == "Decommissioning" || m.status == "ReassigningPrimaries" then Settled(false)
    else if m.status == "GracefulShutdown" || m.status == "Down" then Settled(true)
    else if m.status == "" then Settled(false)
    else Unhandled
  }

  /** The search head manager's way of draining a member. */
  function DetainAnswer(m: Member, n: nat): Answer {
    if m.status == "Up" then Request(SetDetention(n, true))
    else if m.status == "ManualDetention" then Settled(m.historicalSearches + m.realtimeSearches == 0)
    else if m.status == "" then Settled(false)
    else Unhandled
  }

  function PrepareRecycle(kind: Kind, members: seq<Member>, n: nat): Answer
    requires kind.Plain? || n < |members|
  {
    match kind
    case Plain => Settled(true)
    case Indexer => DecommissionAnswer(members[n], n, false)
    case SearchHead => DetainAnswer(members[n], n)
  }

  /** The part of PrepareScaleDown before the member is removed from its cluster. */
  function QuarantineForScaleDown(kind: Kind, members: seq<Member>, n: nat): Answer
    requires kind.Plain? || n < |members|
  {
    match kind
    case Plain => Settled(true)
    case Indexer => DecommissionAnswer(members[n], n, true)
    case SearchHead => DetainAnswer(members[n], n)
  }

  function FinishRecycle(kind: Kind, members: seq<Member>, n: nat): Answer
    requires kind.SearchHead? ==> n < |members|
  {
    match kind
    case Plain => Settled(true)
    case Indexer =>
      if n >= |members| then Unhandled else Settled(members[n].status == "Up")
    case SearchHead =>
      var status := members[n].status;
      if status == "Up" then Settled(true)
      else if status == "ManualDetention" then Request(SetDetention(n, false))
      else Unhandled
  }

  /** The machine's states: the call about to be made, or the result. */
  datatype Pc =
    | Done(phase: Phase, failed: bool)
    | AtScaleUp
    | AtQuarantine(n: nat, request: Call)
    | AtRemoval(n: nat)
    | AtScaleDown(n: nat)
    | AtGetClaim(n: nat, i: nat)
    | AtDeleteClaim(n: nat, i: nat)
    | AtGetPod(n: nat)
    | AtPrepare(n: nat, request: Call)
    | AtDelete(n: nat, pod: Pod)
    | AtRelease(n: nat, request: Call)
    | AtTrim

  /** The states that can occur for a view. */
  predicate Fits(v: View, pc: Pc) {
    match pc
    case AtRemoval(n) => !v.kind.Plain? && n < |v.members|
    case AtGetClaim(_, i) => i < |v.templates|
    case AtDeleteClaim(_, i) => i < |v.templates|
    case AtGetPod(n) => v.kind.Plain? || n < |v.members|
    case _ => true
  }

  function Issue(v: View, pc: Pc): Call
    requires Fits(v, pc) && !pc.Done?
  {
    match pc
    case AtScaleUp => UpdateReplicas(v.desired)
    case AtQuarantine(_, request) => request
    case AtRemoval(n) => if v.kind.Indexer? then RemovePeer(v.members[n].id) else RemoveMember(n)
    case AtScaleDown(n) => UpdateReplicas(n)
    case AtGetClaim(n, i) => GetClaim(ClaimOf(v.templates[i], v.name, n))
    case AtDeleteClaim(n, i) => DeleteClaim(ClaimOf(v.templates[i], v.name, n))
    case AtGetPod(n) => GetPod(n)
    case AtPrepare(_, request) => request
    case AtDelete(n, pod) => DeletePod(n, pod.uid, pod.version)
    case AtRelease(_, request) => request
    case AtTrim => RemoveUnwantedSecrets
  }

  /** Waiting for counts to agree, scaling, or visiting the pods from the highest ordinal down. */
  function Start(v: View): (pc: Pc)
    requires v.Listed()
    ensures Fits(v, pc)
  {
    if v.readyReplicas < v.replicas then
      Done(if v.readyReplicas > 0 then ScalingUp else Pending, false)
    else if v.readyReplicas > v.replicas then Done(ScalingDown, false)
    else if v.readyReplicas < v.desired then AtScaleUp
    else if v.readyReplicas > v.desired then
      var n := v.readyReplicas - 1;
      match QuarantineForScaleDown(v.kind, v.members, n)
      case Unhandled => Done(Error, true)
      case Request(call) => AtQuarantine(n, call)
      case Settled(complete) =>
        if !complete then Done(ScalingDown, false)
        else if v.kind.Plain? then AtScaleDown(n)
        else AtRemoval(n)
    else Below(v, v.readyReplicas)
  }

  /** The next pod to visit once all from `n` up are in order. */
  function Below(v: View, n: nat): (pc: Pc)
    requires v.kind.Plain? || n <= |v.members|
    ensures Fits(v, pc)
  {
    if n == 0 then AtTrim else AtGetPod(n - 1)
  }

  predicate Outdated(v: View, pod: Pod) {
    v.revision != "" && v.revision != pod.revision
  }

  /** What a pod that was found calls for. */
  function Visit(v: View, n: nat, pod: Pod): (pc: Pc)
    requires v.kind.Plain? || n < |v.members|
    ensures Fits(v, pc)
  {
    if !PodReady(pod) then Done(Updating, false)
    else if Outdated(v, pod) then
      match PrepareRecycle(v.kind, v.members, n)
      case Unhandled => Done(Error, true)
      case Request(call) => AtPrepare(n, call)
      case Settled(complete) => if complete then AtDelete(n, pod) else Done(Updating, false)
    else
      match FinishRecycle(v.kind, v.members, n)
      case Unhandled => Done(Error, true)
      case Request(call) => AtRelease(n, call)
      case Settled(complete) => if complete then Below(v, n) else Done(Updating, false)
  }

  /** Claims are deleted in template order; with none left the scale-down is over. */
  function NextClaim(v: View, n: nat, i: nat): (pc: Pc)
    ensures Fits(v, pc)
  {
    if i < |v.templates| then AtGetClaim(n, i) else Done(ScalingDown, false)
  }

  function Step(v: View, pc: Pc, reply: Reply): (next: Pc)
    requires Fits(v, pc) && !pc.Done?
    ensures Fits(v, next)
  {
    var ok := reply.Ok?;
    match pc
    case AtScaleUp => Done(ScalingUp, !ok)
    case AtQuarantine(_, _) => if ok then Done(ScalingDown, false) else Done(Error, true)
    case AtRemoval(n) => if ok then AtScaleDown(n) else Done(Error, true)
    case AtScaleDown(n) => if ok then NextClaim(v, n, 0) else Done(Error, true)
    case AtGetClaim(n, i) => if ok then AtDeleteClaim(n, i) else Done(Error, true)
    case AtDeleteClaim(n, i) => if ok then NextClaim(v, n, i + 1) else Done(Error, true)
    case AtGetPod(n) => if reply.Found? then Visit(v, n, reply.pod) else Done(Error, true)
    case AtPrepare(_, _) => if ok then Done(Updating, false) else Done(Error, true)
    case AtDelete(_, _) => if ok then Done(Updating, false) else Done(Error, true)
    case AtRelease(_, _) => if ok then Done(Updating, false) else Done(Error, true)
    case AtTrim => Done(Ready, !ok)
  }

  /** An upper bound on the calls still to come. */
  function Rank(v: View, pc: Pc): nat {
    match pc
    case Done(_, _) => 0
    case AtGetPod(n) => n + 3
    case AtRemoval(_) => 2 * |v.templates| + 3
    case AtScaleDown(_) => 2 * |v.templates| + 2
    case AtGetClaim(_, i) => if i < |v.templates| then 2 * (|v.templates| - i) + 1 else 1
    case AtDeleteClaim(_, i) => if i < |v.templates| then 2 * (|v.templates| - i) else 1
    case _ => 1
  }

  /** How a reconcile ends: the phase it reports, whether it returns an error, and the calls made. */
  datatype Outcome = Outcome(phase: Phase, failed: bool, log: seq<Call>)

  /** Runs the machine; `replies(k)` answers the k-th call ever made, `log` holds those made so far. */
  function Drive(v: View, pc: Pc, replies: nat -> Reply, log: seq<Call>): Outcome
    requires Fits(v, pc)
    decreases Rank(v, pc)
  {
    if pc.Done? then Outcome(pc.phase, pc.failed, log)
    else Drive(v, Step(v, pc, replies(|log|)), replies, log + [Issue(v, pc)])
  }
}
