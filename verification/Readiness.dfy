/** What a reconcile that reports Ready has established, and what it takes to report it. */
module Readiness {
  import opened StatefulSets

  /** The reply shows pod `n` in order, and its member needs nothing more. */
  predicate GoodReply(v: View, n: nat, reply: Reply) {
    && reply.Found? && PodReady(reply.pod) && !Outdated(v, reply.pod)
    && (v.kind.Plain? || (n < |v.members| && v.members[n].status == "Up"))
  }

  /** The replies to reading pods `n - 1`, ..., 0, in that order, are all good. */
  predicate AllGood(v: View, n: nat, replies: nat -> Reply, at: nat) {
    n == 0 || (GoodReply(v, n - 1, replies(at)) && AllGood(v, n - 1, replies, at + 1))
  }

  /** Each pod's reply is found at its place in the scan. */
  lemma {:induction false} GoodAt(v: View, n: nat, replies: nat -> Reply, at: nat, m: nat)
    requires AllGood(v, n, replies, at) && m < n
    ensures GoodReply(v, m, replies(at + (n - 1 - m)))
  {
    if m < n - 1 {
      GoodAt(v, n - 1, replies, at + 1, m);
    }
  }

  function ReadsDown(n: nat): (calls: seq<Call>)
    ensures |calls| == n
    ensures forall i :: 0 <= i < n ==> calls[i] == GetPod(n - 1 - i)
  {
    if n == 0 then [] else [GetPod(n - 1)] + ReadsDown(n - 1)
  }

  lemma {:induction false} ScanIsReady(v: View, n: nat, replies: nat -> Reply, log: seq<Call>)
    requires v.Listed() && n <= v.readyReplicas
    ensures var run := Drive(v, Below(v, n), replies, log);
      && (run.phase == Ready <==> AllGood(v, n, replies, |log|))
      && (run.phase == Ready ==>
            && run.log == log + ReadsDown(n) + [RemoveUnwantedSecrets]
            && run.failed == !replies(|log| + n).Ok?)
      && (run.phase == Ready || run.phase == Updating || run.phase == Error)
  {
    if n == 0 {
      assert log + ReadsDown(0) == log;
    } else {
      var next := Step(v, AtGetPod(n - 1), replies(|log|));
      var more := log + [GetPod(n - 1)];
      assert Drive(v, Below(v, n), replies, log) == Drive(v, next, replies, more);
      if GoodReply(v, n - 1, replies(|log|)) {
        GoodPasses(v, n - 1, replies(|log|));
        ScanIsReady(v, n - 1, replies, more);
        assert more + ReadsDown(n - 1) == log + ReadsDown(n);
      } else {
        StoppedIsNotReady(v, n - 1, replies, log);
      }
    }
  }

  lemma GoodPasses(v: View, n: nat, reply: Reply)
    requires v.Listed() && n < v.readyReplicas && GoodReply(v, n, reply)
    ensures Step(v, AtGetPod(n), reply) == Below(v, n)
  {
  }

  /** States from which at most one more call is made, and Ready is out of reach. */
  predicate Stops(pc: Pc) {
    match pc
    case Done(phase, _) => phase == Updating || phase == Error
    case AtPrepare(_, _) => true
    case AtDelete(_, _) => true
    case AtRelease(_, _) => true
    case _ => false
  }

  lemma NotGoodStops(v: View, n: nat, reply: Reply)
    requires v.Listed() && n < v.readyReplicas && !GoodReply(v, n, reply)
    ensures Stops(Step(v, AtGetPod(n), reply))
  {
  }

  lemma SecondCallEnds(v: View, pc: Pc, replies: nat -> Reply, log: seq<Call>)
    requires Fits(v, pc) && Stops(pc)
    ensures var run := Drive(v, pc, replies, log); run.phase == Updating || run.phase == Error
  {
  }

  /** A pod that is not in order ends the scan short of Ready. */
  lemma StoppedIsNotReady(v: View, n: nat, replies: nat -> Reply, log: seq<Call>)
    requires v.Listed() && n < v.readyReplicas && !GoodReply(v, n, replies(|log|))
    ensures var run := Drive(v, AtGetPod(n), replies, log); run.phase == Updating || run.phase == Error
  {
    var next := Step(v, AtGetPod(n), replies(|log|));
    NotGoodStops(v, n, replies(|log|));
    assert Drive(v, AtGetPod(n), replies, log) == Drive(v, next, replies, log + [GetPod(n)]);
    SecondCallEnds(v, next, replies, log + [GetPod(n)]);
  }

  /**
   Ready is reported exactly when the stored, ready and wanted counts agree and this very reconcile
   found every pod running, ready, on the update revision and back in service. The reconcile then
   has read each pod once, from the top, and its error says whether trimming old secrets failed.
   */
  lemma ReadyIsEarned(v: View, replies: nat -> Reply, log: seq<Call>)
    requires v.Listed()
    ensures var run := Drive(v, Start(v), replies, log);
      && (run.phase == Ready <==>
            && v.replicas == v.readyReplicas == v.desired
            && AllGood(v, v.readyReplicas, replies, |log|))
      && (run.phase == Ready ==>
            && run.log == log + ReadsDown(v.readyReplicas) + [RemoveUnwantedSecrets]
            && run.failed == !replies(|log| + v.readyReplicas).Ok?)
  {
    if v.replicas == v.readyReplicas == v.desired {
      ScanIsReady(v, v.readyReplicas, replies, log);
    } else {
      ScalingIsNotReady(v, Start(v), replies, log);
    }
  }

  /** The scaling states never lead to Ready. */
  predicate Scales(pc: Pc) {
    match pc
    case Done(phase, _) => phase != Ready
    case AtScaleUp => true
    case AtQuarantine(_, _) => true
    case AtRemoval(_) => true
    case AtScaleDown(_) => true
    case AtGetClaim(_, _) => true
    case AtDeleteClaim(_, _) => true
    case _ => false
  }

  lemma {:induction false} ScalingIsNotReady(v: View, pc: Pc, replies: nat -> Reply, log: seq<Call>)
    requires Fits(v, pc) && Scales(pc)
    ensures Drive(v, pc, replies, log).phase != Ready
    decreases Rank(v, pc)
  {
    if !pc.Done? {
      ScalingIsNotReady(v, Step(v, pc, replies(|log|)), replies, log + [Issue(v, pc)]);
    }
  }
}
