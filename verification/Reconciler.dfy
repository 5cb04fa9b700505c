/**
 The reconcile code itself: the pod manager's methods and UpdateStatefulSetPods, written over a
 client whose replies are arbitrary, and proved to be exactly the machine of StatefulSets.
 */
module Reconciler {
  import opened StatefulSets

  /** An API client: logs what it is asked and answers the k-th request with `replies(k)`. */
  class Client {
    const replies: nat -> Reply
    var log: seq<Call>

    constructor (replies: nat -> Reply)
      ensures this.replies == replies && log == []
    {
      this.replies := replies;
      log := [];
    }

    method Send(call: Call) returns (reply: Reply)
      modifies this
      ensures log == old(log) + [call]
      ensures reply == replies(|old(log)|)
    {
      reply := replies(|log|);
      log := log + [call];
    }
  }

  class StatefulSet {
    const name: string
    const templates: seq<Template>
    var replicas: nat
    var readyReplicas: nat
    var revision: string

    constructor (name: string, templates: seq<Template>, replicas: nat, readyReplicas: nat, revision: string)
      ensures this.name == name && this.templates == templates
      ensures this.replicas == replicas && this.readyReplicas == readyReplicas && this.revision == revision
    {
      this.name, this.templates := name, templates;
      this.replicas, this.readyReplicas, this.revision := replicas, readyReplicas, revision;
    }
  }

  /** A manager method's result and log for the answer the member list gives. */
  twostate predicate Answered(c: Client, answer: Answer, complete: bool, failed: bool)
    reads c
  {
    match answer
    case Settled(b) => complete == b && !failed && c.log == old(c.log)
    case Unhandled => !complete && failed && c.log == old(c.log)
    case Request(call) =>
      && !complete && failed == !c.replies(|old(c.log)|).Ok?
      && c.log == old(c.log) + [call]
  }

  /** The three managers; `kind` selects the behaviour, `members` is the status list of the CR. */
  class PodManager {
    const kind: Kind
    var members: seq<Member>

    constructor (kind: Kind, members: seq<Member>)
      ensures this.kind == kind && this.members == members
    {
      this.kind, this.members := kind, members;
    }

    method Decommission(c: Client, n: nat, enforceCounts: bool) returns (complete: bool, failed: bool)
      requires n < |members|
      modifies c
      ensures Answered(c, DecommissionAnswer(members[n], n, enforceCounts), complete, failed)
    {
      match members[n].status {
        case "Up" =>
          var reply := c.Send(Call.Decommission(n, enforceCounts));
          return false, !reply.Ok?;
        case "Decommissioning" => return false, false;
        case "ReassigningPrimaries" => return false, false;
        case "GracefulShutdown" => return true, false;
        case "Down" => return true, false;
        case "" => return false, false;
        case _ => return false, true;
      }
    }

    method Detain(c: Client, n: nat) returns (complete: bool, failed: bool)
      requires n < |members|
      modifies c
      ensures Answered(c, DetainAnswer(members[n], n), complete, failed)
    {
      match members[n].status {
        case "Up" =>
          var reply := c.Send(SetDetention(n, true));
          return false, !reply.Ok?;
        case "ManualDetention" =>
          return members[n].historicalSearches + members[n].realtimeSearches == 0, false;
        case "" => return false, false;
        case _ => return false, true;
      }
    }

    method PrepareRecycle(c: Client, n: nat) returns (ready: bool, failed: bool)
      requires kind.Plain? || n < |members|
      modifies c
      ensures Answered(c, StatefulSets.PrepareRecycle(kind, members, n), ready, failed)
    {
      match kind {
        case Plain => return true, false;
        case Indexer => ready, failed := Decommission(c, n, false);
        case SearchHead => ready, failed := Detain(c, n);
      }
    }

    /** Quarantine, then remove the member from its cluster. */
    method PrepareScaleDown(c: Client, n: nat) returns (ready: bool, failed: bool)
      requires kind.Plain? || n < |members|
      modifies c
      ensures var answer := QuarantineForScaleDown(kind, members, n);
        if kind.Plain? || answer != Settled(true) then Answered(c, answer, ready, failed)
        else
          && failed == !c.replies(|old(c.log)|).Ok?
          && (!failed ==> ready)
          && c.log == old(c.log) + [if kind.Indexer? then RemovePeer(members[n].id) else RemoveMember(n)]
    {
      match kind {
        case Plain => return true, false;
        case Indexer =>
          var complete, err := Decommission(c, n, true);
          if err { return false, true; }
          if !complete { return false, false; }
          var reply := c.Send(RemovePeer(members[n].id));
          return true, !reply.Ok?;
        case SearchHead =>
          var result, err := PrepareRecycle(c, n);
          if err || !result { return result, err; }
          var reply := c.Send(RemoveMember(n));
          if !reply.Ok? { return false, true; }
          return true, false;
      }
    }

    method FinishRecycle(c: Client, n: nat) returns (complete: bool, failed: bool)
      requires kind.SearchHead? ==> n < |members|
      modifies c
      ensures Answered(c, StatefulSets.FinishRecycle(kind, members, n), complete, failed)
    {
      match kind {
        case Plain => return true, false;
        case Indexer =>
          if n >= |members| { return false, true; }
          return members[n].status == "Up", false;
        case SearchHead =>
          match members[n].status {
            case "Up" => return true, false;
            case "ManualDetention" =>
              var reply := c.Send(SetDetention(n, false));
              return false, !reply.Ok?;
            case _ => return false, true;
          }
      }
    }
  }

  function ViewOf(sts: StatefulSet, mgr: PodManager, desired: nat): View
    reads sts, mgr
  {
    View(mgr.kind, sts.name, sts.templates, sts.replicas, sts.readyReplicas, sts.revision, desired, mgr.members)
  }

  /** The replica count left in the object in memory, acknowledged by the API server or not. */
  function LocalReplicas(v: View, first: Reply): nat
    requires v.Listed()
  {
    match Start(v)
    case AtScaleUp => v.desired
    case AtScaleDown(n) => n
    case AtRemoval(n) => if first.Ok? then n else v.replicas
    case _ => v.replicas
  }

  method UpdateStatefulSetPods(c: Client, sts: StatefulSet, mgr: PodManager, desired: nat)
    returns (phase: Phase, failed: bool)
    requires ViewOf(sts, mgr, desired).Listed()
    modifies c, sts`replicas
    ensures var v := old(ViewOf(sts, mgr, desired));
      && Outcome(phase, failed, c.log) == Drive(v, Start(v), c.replies, old(c.log))
      && sts.replicas == LocalReplicas(v, c.replies(|old(c.log)|))
  {
    ghost var v := ViewOf(sts, mgr, desired);
    var replicas, readyReplicas := sts.replicas, sts.readyReplicas;
    if readyReplicas < replicas {
      if readyReplicas > 0 { return ScalingUp, false; }
      return Pending, false;
    } else if readyReplicas > replicas {
      return ScalingDown, false;
    }

    if readyReplicas < desired {
      sts.replicas := desired;
      var reply := c.Send(UpdateReplicas(desired));
      return ScalingUp, !reply.Ok?;
    }

    if readyReplicas > desired {
      phase, failed := ScaleDown(c, sts, mgr, v);
      return;
    }

    phase, failed := VisitPods(c, sts, mgr, v);
  }

  /** The pod loop, from the highest ordinal down. */
  method VisitPods(c: Client, sts: StatefulSet, mgr: PodManager, ghost v: View)
    returns (phase: Phase, failed: bool)
    requires v == ViewOf(sts, mgr, v.desired) && v.Listed()
    modifies c
    ensures Outcome(phase, failed, c.log) == Drive(v, Below(v, v.readyReplicas), c.replies, old(c.log))
  {
    ghost var run := Drive(v, Below(v, v.readyReplicas), c.replies, c.log);
    var n: nat := sts.readyReplicas;
    while n > 0
      invariant n <= sts.readyReplicas
      invariant run == Drive(v, Below(v, n), c.replies, c.log)
    {
      n := n - 1;
      var stop;
      stop, phase, failed := VisitPod(c, sts, mgr, n, v);
      if stop { return; }
    }

    var trimmed := c.Send(RemoveUnwantedSecrets);
    return Ready, !trimmed.Ok?;
  }

  /** The body of the pod loop; `stop` when the reconcile returns from it. */
  method VisitPod(c: Client, sts: StatefulSet, mgr: PodManager, n: nat, ghost v: View)
    returns (stop: bool, phase: Phase, failed: bool)
    requires v.kind == mgr.kind && v.members == mgr.members && v.revision == sts.revision
    requires v.kind.Plain? || n < |v.members|
    modifies c
    ensures Drive(v, AtGetPod(n), c.replies, old(c.log))
      == if stop then Outcome(phase, failed, c.log) else Drive(v, Below(v, n), c.replies, c.log)
  {
    var reply := c.Send(GetPod(n));
    if !reply.Found? { return true, Error, true; }
    var pod := reply.pod;
    assert Drive(v, AtGetPod(n), c.replies, old(c.log)) == Drive(v, Visit(v, n, pod), c.replies, c.log);
    if !PodReady(pod) { return true, Updating, false; }
    if sts.revision != "" && sts.revision != pod.revision {
      ghost var visited := c.log;
      var ready, err := mgr.PrepareRecycle(c, n);
      if !ready {
        assert Drive(v, Visit(v, n, pod), c.replies, visited)
            == Drive(v, if err then Done(Error, true) else Done(Updating, false), c.replies, c.log);
      }
      if err { return true, Error, true; }
      if !ready { return true, Updating, false; }
      assert Drive(v, AtGetPod(n), c.replies, old(c.log)) == Drive(v, AtDelete(n, pod), c.replies, c.log);
      var deleted := c.Send(DeletePod(n, pod.uid, pod.version));
      assert Drive(v, AtGetPod(n), c.replies, old(c.log))
          == Drive(v, Step(v, AtDelete(n, pod), deleted), c.replies, c.log);
      if !deleted.Ok? { return true, Error, true; }
      return true, Updating, false;
    }
    ghost var visited := c.log;
    var complete, err := mgr.FinishRecycle(c, n);
    if !complete {
      assert Drive(v, Visit(v, n, pod), c.replies, visited)
          == Drive(v, if err then Done(Error, true) else Done(Updating, false), c.replies, c.log);
    }
    if err { return true, Error, true; }
    return !complete, Updating, false;
  }

  /** The scale-down branch: remove the highest ordinal, then the claims its pod used. */
  method ScaleDown(c: Client, sts: StatefulSet, mgr: PodManager, ghost v: View)
    returns (phase: Phase, failed: bool)
    requires v == ViewOf(sts, mgr, v.desired) && v.Listed()
    requires v.readyReplicas == v.replicas > v.desired
    modifies c, sts`replicas
    ensures Outcome(phase, failed, c.log) == Drive(v, Start(v), c.replies, old(c.log))
    ensures sts.replicas == LocalReplicas(v, c.replies(|old(c.log)|))
  {
    var n := sts.readyReplicas - 1;
    var ready, err := mgr.PrepareScaleDown(c, n);
    if err { return Error, true; }
    if !ready { return ScalingDown, false; }
    assert Drive(v, Start(v), c.replies, old(c.log)) == Drive(v, AtScaleDown(n), c.replies, c.log);

    sts.replicas := n;
    var updated := c.Send(UpdateReplicas(n));
    assert Drive(v, Start(v), c.replies, old(c.log)) == Drive(v, Step(v, AtScaleDown(n), updated), c.replies, c.log);
    if !updated.Ok? { return Error, true; }
    phase, failed := DeleteClaims(c, sts, n, v);
  }

  /** Deletes the claims of ordinal `n`, one per template, giving up at the first failure. */
  method DeleteClaims(c: Client, sts: StatefulSet, n: nat, ghost v: View) returns (phase: Phase, failed: bool)
    requires v.templates == sts.templates && v.name == sts.name
    modifies c
    ensures Outcome(phase, failed, c.log) == Drive(v, NextClaim(v, n, 0), c.replies, old(c.log))
  {
    ghost var run := Drive(v, NextClaim(v, n, 0), c.replies, c.log);
    var i := 0;
    while i < |sts.templates|
      invariant 0 <= i <= |sts.templates|
      invariant run == Drive(v, NextClaim(v, n, i), c.replies, c.log)
    {
      var claim := ClaimOf(sts.templates[i], sts.name, n);
      var got := c.Send(GetClaim(claim));
      if !got.Ok? { return Error, true; }
      assert run == Drive(v, AtDeleteClaim(n, i), c.replies, c.log);
      var deleted := c.Send(DeleteClaim(claim));
      assert run == Drive(v, Step(v, AtDeleteClaim(n, i), deleted), c.replies, c.log);
      if !deleted.Ok? { return Error, true; }
      i := i + 1;
    }
    return ScalingDown, false;
  }
}
