/**
 How every reconcile of a StatefulSet's pods ends: the calls it makes, the phase it reports and whether it
 returns an error, in terms of the counts, the replies and what the members report.
 */
module Verdicts {
  import opened StatefulSets
  import opened Readiness
  import Reconciler

  /** How far a member is on its way out. */
  datatype Condition = Serving | Moving | Out | Unheard

  function ConditionOf(kind: Kind, m: Member): Condition
    requires !kind.Plain?
  {
    if m.status == "Up" then Serving
    else if m.status == "" then Moving
    else if kind.Indexer? && m.status in {"Decommissioning", "ReassigningPrimaries"} then Moving
    else if kind.Indexer? && m.status in {"GracefulShutdown", "Down"} then Out
    else if kind.SearchHead? && m.status == "ManualDetention" then
      if m.historicalSearches == 0 && m.realtimeSearches == 0 then Out else Moving
    else Unheard
  }

  /** The request that starts member `n` on its way out, for good if it is to be scaled away. */
  function Dismissal(kind: Kind, n: nat, forGood: bool): Call
    requires !kind.Plain?
  {
    if kind.Indexer? then Decommission(n, forGood) else SetDetention(n, true)
  }

  /** The reply is what the call asks for. */
  predicate Granted(call: Call, reply: Reply) {
    if call.GetPod? then reply.Found? else reply.Ok?
  }

  /** Planned calls are made in turn, up to the first that is not granted. */
  function Made(plan: seq<Call>, replies: nat -> Reply, at: nat): (calls: seq<Call>)
    ensures calls <= plan
    decreases |plan|
  {
    if plan == [] then []
    else if !Granted(plan[0], replies(at)) then [plan[0]]
    else [plan[0]] + Made(plan[1..], replies, at + 1)
  }

  predicate AllGranted(plan: seq<Call>, replies: nat -> Reply, at: nat)
    decreases |plan|
  {
    plan == [] || (Granted(plan[0], replies(at)) && AllGranted(plan[1..], replies, at + 1))
  }

  /** A reconcile that carries out a plan, and reports `phase` if all of it is granted. */
  predicate CarriesOut(run: Outcome, log: seq<Call>, plan: seq<Call>, replies: nat -> Reply, phase: Phase) {
    && run.log == log + Made(plan, replies, |log|)
    && run.failed == !AllGranted(plan, replies, |log|)
    && run.phase == if run.failed then Error else phase
  }

  /** A reconcile that stops without a call, in an error if the member's status is not one the manager knows. */
  predicate Stays(run: Outcome, log: seq<Call>, phase: Phase) {
    run == Outcome(phase, false, log)
  }

  predicate Balks(run: Outcome, log: seq<Call>) {
    run == Outcome(Error, true, log)
  }

  /** The reads and deletions of the claims of ordinal `n`, from template `i` on. */
  function ClaimCalls(v: View, n: nat, i: nat): (calls: seq<Call>)
    requires i <= |v.templates|
    ensures |calls| == 2 * (|v.templates| - i)
    ensures forall k :: i <= k < |v.templates| ==>
      && calls[2 * (k - i)] == GetClaim(ClaimOf(v.templates[k], v.name, n))
      && calls[2 * (k - i) + 1] == DeleteClaim(ClaimOf(v.templates[k], v.name, n))
    ensures forall k :: 0 <= k < |calls| ==> calls[k].GetClaim? || calls[k].DeleteClaim?
    decreases |v.templates| - i
  {
    if i == |v.templates| then []
    else
      var claim := ClaimOf(v.templates[i], v.name, n);
      [GetClaim(claim), DeleteClaim(claim)] + ClaimCalls(v, n, i + 1)
  }

  /** What it takes to remove ordinal `n` once its member is out. */
  function RemovalPlan(v: View, n: nat): seq<Call>
    requires v.kind.Plain? || n < |v.members|
  {
    (match v.kind
     case Plain => []
     case Indexer => [RemovePeer(v.members[n].id)]
     case SearchHead => [RemoveMember(n)])
    + [UpdateReplicas(n)] + ClaimCalls(v, n, 0)
  }

  /** How a scale-down ends. */
  predicate ShrinksRight(v: View, replies: nat -> Reply, log: seq<Call>, run: Outcome)
    requires v.Listed() && v.readyReplicas > 0
  {
    var n := v.readyReplicas - 1;
    if v.kind.Plain? then CarriesOut(run, log, RemovalPlan(v, n), replies, ScalingDown)
    else match ConditionOf(v.kind, v.members[n])
      case Serving => CarriesOut(run, log, [Dismissal(v.kind, n, true)], replies, ScalingDown)
      case Moving => Stays(run, log, ScalingDown)
      case Out => CarriesOut(run, log, RemovalPlan(v, n), replies, ScalingDown)
      case Unheard => Balks(run, log)
  }

  /** How a scan ends at pod `n`, which was read last and is not in order. */
  predicate StopsRight(v: View, n: nat, reply: Reply, replies: nat -> Reply, log: seq<Call>, run: Outcome)
    requires v.kind.Plain? || n < |v.members|
  {
    if !reply.Found? then Balks(run, log)
    else if !Runs(reply.pod) then Stays(run, log, Updating)
    else if !Current(v, reply.pod) then
      var delete := DeletePod(n, reply.pod.uid, reply.pod.version);
      if v.kind.Plain? then CarriesOut(run, log, [delete], replies, Updating)
      else match ConditionOf(v.kind, v.members[n])
        case Serving => CarriesOut(run, log, [Dismissal(v.kind, n, false)], replies, Updating)
        case Moving => Stays(run, log, Updating)
        case Out => CarriesOut(run, log, [delete], replies, Updating)
        case Unheard => Balks(run, log)
    else if v.kind.Indexer? then Stays(run, log, Updating)
    else if v.kind.SearchHead? && v.members[n].status == "ManualDetention" then
      CarriesOut(run, log, [SetDetention(n, false)], replies, Updating)
    else Balks(run, log)
  }

  /** The pod runs, and its first container is ready. */
  predicate Runs(pod: Pod) {
    pod.running && |pod.containers| > 0 && pod.containers[0]
  }

  /** The pod's label names the revision that is being rolled out, if there is one. */
  predicate Current(v: View, pod: Pod) {
    v.revision == "" || pod.revision == v.revision
  }

  /** Pod `n` was found running and current, and its member serves. */
  predicate Fine(v: View, n: nat, reply: Reply) {
    && reply.Found? && Runs(reply.pod) && Current(v, reply.pod)
    && (v.kind.Plain? || (n < |v.members| && v.members[n].status == "Up"))
  }

  /** How many of the pods from `n - 1` down are found in order before one that is not. */
  function InOrder(v: View, n: nat, replies: nat -> Reply, at: nat): (k: nat)
    ensures k <= n
  {
    if n == 0 || !Fine(v, n - 1, replies(at)) then 0 else 1 + InOrder(v, n - 1, replies, at + 1)
  }

  predicate ScansRight(v: View, n: nat, replies: nat -> Reply, log: seq<Call>, run: Outcome)
    requires v.kind.Plain? || n <= |v.members|
  {
    var k := InOrder(v, n, replies, |log|);
    if k == n then run == Outcome(Ready, !replies(|log| + n).Ok?, log + ReadsDown(n) + [RemoveUnwantedSecrets])
    else StopsRight(v, n - 1 - k, replies(|log| + k), replies, log + ReadsDown(n)[..k + 1], run)
  }

  /** How a reconcile ends. */
  predicate EndsRight(v: View, replies: nat -> Reply, log: seq<Call>, run: Outcome)
    requires v.Listed()
  {
    if v.readyReplicas < v.replicas then Stays(run, log, if v.readyReplicas > 0 then ScalingUp else Pending)
    else if v.readyReplicas > v.replicas then Stays(run, log, ScalingDown)
    else if v.readyReplicas < v.desired then
      run == Outcome(ScalingUp, !replies(|log|).Ok?, log + [UpdateReplicas(v.desired)])
    else if v.readyReplicas > v.desired then ShrinksRight(v, replies, log, run)
    else ScansRight(v, v.readyReplicas, replies, log, run)
  }

  /** A first call, and what follows if it is granted. */
  lemma FirstMade(run: Outcome, log: seq<Call>, call: Call, rest: seq<Call>, replies: nat -> Reply, phase: Phase)
    requires if Granted(call, replies(|log|)) then CarriesOut(run, log + [call], rest, replies, phase)
             else run == Outcome(Error, true, log + [call])
    ensures CarriesOut(run, log, [call] + rest, replies, phase)
  {
    var plan := [call] + rest;
    assert plan[1..] == rest && plan[0] == call;
    assert log + [call] + Made(rest, replies, |log| + 1) == log + ([call] + Made(rest, replies, |log| + 1));
  }

  lemma OneMade(run: Outcome, log: seq<Call>, call: Call, replies: nat -> Reply, phase: Phase)
    requires run == Outcome(if Granted(call, replies(|log|)) then phase else Error,
                            !Granted(call, replies(|log|)), log + [call])
    ensures CarriesOut(run, log, [call], replies, phase)
  {
    assert log + [call] + [] == log + [call];
    FirstMade(run, log, call, [], replies, phase);
    assert [call] + [] == [call];
  }

  /** Claims are read and deleted in turn. */
  lemma {:induction false} ClaimsEnd(v: View, n: nat, i: nat, replies: nat -> Reply, log: seq<Call>)
    requires i <= |v.templates|
    ensures CarriesOut(Drive(v, NextClaim(v, n, i), replies, log), log, ClaimCalls(v, n, i), replies, ScalingDown)
    decreases |v.templates| - i
  {
    if i == |v.templates| {
      assert log + [] == log;
    } else {
      var claim := ClaimOf(v.templates[i], v.name, n);
      var read := log + [GetClaim(claim)];
      var run := Drive(v, AtGetClaim(n, i), replies, log);
      if replies(|log|).Ok? {
        assert run == Drive(v, AtDeleteClaim(n, i), replies, read);
        var gone := read + [DeleteClaim(claim)];
        if replies(|read|).Ok? {
          assert run == Drive(v, NextClaim(v, n, i + 1), replies, gone);
          ClaimsEnd(v, n, i + 1, replies, gone);
        } else {
          assert run == Drive(v, Done(Error, true), replies, gone);
        }
        FirstMade(run, read, DeleteClaim(claim), ClaimCalls(v, n, i + 1), replies, ScalingDown);
      } else {
        assert run == Drive(v, Done(Error, true), replies, read);
      }
      FirstMade(run, log, GetClaim(claim), [DeleteClaim(claim)] + ClaimCalls(v, n, i + 1), replies, ScalingDown);
      assert [GetClaim(claim)] + ([DeleteClaim(claim)] + ClaimCalls(v, n, i + 1)) == ClaimCalls(v, n, i);
    }
  }

  lemma ShrinkEnds(v: View, n: nat, replies: nat -> Reply, log: seq<Call>)
    ensures CarriesOut(Drive(v, AtScaleDown(n), replies, log), log, [UpdateReplicas(n)] + ClaimCalls(v, n, 0), replies,
                       ScalingDown)
  {
    var run, more := Drive(v, AtScaleDown(n), replies, log), log + [UpdateReplicas(n)];
    if replies(|log|).Ok? {
      assert run == Drive(v, NextClaim(v, n, 0), replies, more);
      ClaimsEnd(v, n, 0, replies, more);
    } else {
      assert run == Drive(v, Done(Error, true), replies, more);
    }
    FirstMade(run, log, UpdateReplicas(n), ClaimCalls(v, n, 0), replies, ScalingDown);
  }

  lemma RemovalEnds(v: View, n: nat, replies: nat -> Reply, log: seq<Call>)
    requires !v.kind.Plain? && n < |v.members|
    ensures CarriesOut(Drive(v, AtRemoval(n), replies, log), log, RemovalPlan(v, n), replies, ScalingDown)
  {
    var call := if v.kind.Indexer? then RemovePeer(v.members[n].id) else RemoveMember(n);
    var run, rest := Drive(v, AtRemoval(n), replies, log), [UpdateReplicas(n)] + ClaimCalls(v, n, 0);
    if replies(|log|).Ok? {
      assert run == Drive(v, AtScaleDown(n), replies, log + [call]);
      ShrinkEnds(v, n, replies, log + [call]);
    } else {
      assert run == Drive(v, Done(Error, true), replies, log + [call]);
    }
    FirstMade(run, log, call, rest, replies, ScalingDown);
    assert [call] + rest == [call] + [UpdateReplicas(n)] + ClaimCalls(v, n, 0);
  }

  lemma AskEnds(v: View, n: nat, call: Call, replies: nat -> Reply, log: seq<Call>)
    requires !call.GetPod?
    ensures CarriesOut(Drive(v, AtQuarantine(n, call), replies, log), log, [call], replies, ScalingDown)
  {
    var pc := AtQuarantine(n, call);
    var run := Drive(v, pc, replies, log);
    assert run == Drive(v, Step(v, pc, replies(|log|)), replies, log + [call]);
    OneMade(run, log, call, replies, ScalingDown);
  }

  /** Where a scale-down starts, by the condition of the highest member. */
  lemma ShrinkStarts(v: View)
    requires v.Listed() && v.readyReplicas == v.replicas > v.desired
    ensures var n: nat := v.readyReplicas - 1;
      if v.kind.Plain? then Start(v) == AtScaleDown(n)
      else match ConditionOf(v.kind, v.members[n])
        case Serving => Start(v) == AtQuarantine(n, Dismissal(v.kind, n, true))
        case Moving => Start(v) == Done(ScalingDown, false)
        case Out => Start(v) == AtRemoval(n)
        case Unheard => Start(v) == Done(Error, true)
  {
  }

  lemma ScaleDownEnds(v: View, replies: nat -> Reply, log: seq<Call>)
    requires v.Listed() && v.readyReplicas == v.replicas > v.desired
    ensures ShrinksRight(v, replies, log, Drive(v, Start(v), replies, log))
  {
    var n: nat := v.readyReplicas - 1;
    ShrinkStarts(v);
    if v.kind.Plain? {
      ShrinkEnds(v, n, replies, log);
      assert [] + [UpdateReplicas(n)] + ClaimCalls(v, n, 0) == [UpdateReplicas(n)] + ClaimCalls(v, n, 0);
    } else if ConditionOf(v.kind, v.members[n]).Out? {
      RemovalEnds(v, n, replies, log);
    } else if ConditionOf(v.kind, v.members[n]).Serving? {
      AskEnds(v, n, Dismissal(v.kind, n, true), replies, log);
    }
  }

  /** A pod that is not in order ends the scan. */
  lemma StopEnds(v: View, n: nat, replies: nat -> Reply, log: seq<Call>)
    requires v.Listed() && n < v.readyReplicas && !Fine(v, n, replies(|log|))
    ensures StopsRight(v, n, replies(|log|), replies, log + [GetPod(n)], Drive(v, AtGetPod(n), replies, log))
  {
    var reply, more, run := replies(|log|), log + [GetPod(n)], Drive(v, AtGetPod(n), replies, log);
    var next := Step(v, AtGetPod(n), reply);
    assert run == Drive(v, next, replies, more);
    if !next.Done? {
      var call := Issue(v, next);
      assert run == Drive(v, Step(v, next, replies(|more|)), replies, more + [call]);
      OneMade(run, more, call, replies, Updating);
    }
  }

  /** A pod in order leaves it to the pods below. */
  lemma ScanGoesOn(v: View, n: nat, replies: nat -> Reply, log: seq<Call>, run: Outcome)
    requires v.Listed() && 0 < n <= v.readyReplicas && Fine(v, n - 1, replies(|log|))
    requires ScansRight(v, n - 1, replies, log + [GetPod(n - 1)], run)
    ensures ScansRight(v, n, replies, log, run)
  {
    var more := log + [GetPod(n - 1)];
    var k := InOrder(v, n - 1, replies, |more|);
    assert more + ReadsDown(n - 1) == log + ReadsDown(n);
    if k < n - 1 {
      assert ReadsDown(n)[..k + 2] == [GetPod(n - 1)] + ReadsDown(n - 1)[..k + 1];
      assert more + ReadsDown(n - 1)[..k + 1] == log + ReadsDown(n)[..k + 2];
    }
  }

  lemma ReadPasses(v: View, n: nat, replies: nat -> Reply, log: seq<Call>) returns (next: Pc, more: seq<Call>)
    requires v.Listed() && 0 < n <= v.readyReplicas && Fine(v, n - 1, replies(|log|))
    ensures next == Below(v, n - 1) && more == log + [GetPod(n - 1)]
    ensures Drive(v, Below(v, n), replies, log) == Drive(v, next, replies, more)
  {
    var pc := AtGetPod(n - 1);
    next, more := Step(v, pc, replies(|log|)), log + [GetPod(n - 1)];
    DriveStep(v, pc, replies, log);
    FinePasses(v, n - 1, replies(|log|));
  }

  lemma FinePasses(v: View, n: nat, reply: Reply)
    requires v.Listed() && n < v.readyReplicas && Fine(v, n, reply)
    ensures Step(v, AtGetPod(n), reply) == Below(v, n)
  {
    GoodPasses(v, n, reply);
  }

  lemma DriveStep(v: View, pc: Pc, replies: nat -> Reply, log: seq<Call>)
    requires Fits(v, pc) && !pc.Done?
    ensures Drive(v, pc, replies, log) == Drive(v, Step(v, pc, replies(|log|)), replies, log + [Issue(v, pc)])
  {
  }

  lemma ReadStops(v: View, n: nat, replies: nat -> Reply, log: seq<Call>, run: Outcome)
    requires v.Listed() && 0 < n <= v.readyReplicas && !Fine(v, n - 1, replies(|log|))
    requires run == Drive(v, Below(v, n), replies, log)
    ensures ScansRight(v, n, replies, log, run)
  {
    StopEnds(v, n - 1, replies, log);
    assert ReadsDown(n)[..1] == [GetPod(n - 1)];
  }

  lemma {:induction false} ScanEnds(v: View, n: nat, replies: nat -> Reply, log: seq<Call>, run: Outcome)
    requires v.Listed() && n <= v.readyReplicas && run == Drive(v, Below(v, n), replies, log)
    ensures ScansRight(v, n, replies, log, run)
    decreases n
  {
    if n == 0 {
      assert log + ReadsDown(0) == log;
    } else if Fine(v, n - 1, replies(|log|)) {
      var next, more := ReadPasses(v, n, replies, log);
      ScanEnds(v, n - 1, replies, more, run);
      ScanGoesOn(v, n, replies, log, run);
    } else {
      ReadStops(v, n, replies, log, run);
    }
  }

  /** Every reconcile ends as it should, whatever the counts, the members and the replies. */
  lemma ReconcileEnds(v: View, replies: nat -> Reply, log: seq<Call>)
    requires v.Listed()
    ensures EndsRight(v, replies, log, Drive(v, Start(v), replies, log))
  {
    if v.readyReplicas == v.replicas {
      if v.readyReplicas < v.desired {
        assert Drive(v, Start(v), replies, log)
            == Drive(v, Done(ScalingUp, !replies(|log|).Ok?), replies, log + [UpdateReplicas(v.desired)]);
      } else if v.readyReplicas > v.desired {
        ScaleDownEnds(v, replies, log);
      } else {
        ScanEnds(v, v.readyReplicas, replies, log, Drive(v, Start(v), replies, log));
      }
    }
  }

  /** The last call of the reconcile was not granted. */
  predicate LastDenied(replies: nat -> Reply, log: seq<Call>, run: Outcome) {
    |run.log| > |log| && !Granted(run.log[|run.log| - 1], replies(|run.log| - 1))
  }

  /** Member `n` has a status its manager does not know for one that is to go, or to come back. */
  predicate BalksAt(v: View, n: nat, leaves: bool)
    requires v.kind.Plain? || n < |v.members|
  {
    match v.kind
    case Plain => false
    case Indexer =>
      leaves && v.members[n].status !in
        {"Up", "Decommissioning", "ReassigningPrimaries", "GracefulShutdown", "Down", ""}
    case SearchHead =>
      v.members[n].status !in (if leaves then {"Up", "ManualDetention", ""} else {"Up", "ManualDetention"})
  }

  /** The reconcile stopped at a member of such a status: the highest, or the one whose pod it read last. */
  predicate Balked(v: View, replies: nat -> Reply, log: seq<Call>, run: Outcome)
    requires v.Listed()
  {
    v.readyReplicas == v.replicas &&
    if v.readyReplicas > v.desired then run.log == log && BalksAt(v, v.readyReplicas - 1, true)
    else
      && |run.log| > |log| && run.log[|run.log| - 1].GetPod? && run.log[|run.log| - 1].n < v.readyReplicas
      && var n, reply := run.log[|run.log| - 1].n, replies(|run.log| - 1);
      reply.Found? && Runs(reply.pod) && BalksAt(v, n, !Current(v, reply.pod))
  }

  predicate LastGranted(calls: seq<Call>, replies: nat -> Reply, at: nat) {
    calls == [] || Granted(calls[|calls| - 1], replies(at + |calls| - 1))
  }

  lemma LastShifts(call: Call, rest: seq<Call>, replies: nat -> Reply, at: nat)
    requires Granted(call, replies(at))
    ensures LastGranted([call] + rest, replies, at) <==> LastGranted(rest, replies, at + 1)
  {
    var calls := [call] + rest;
    if rest != [] {
      assert calls[|calls| - 1] == rest[|rest| - 1];
    }
  }

  /** A plan is carried out exactly if the last call made of it is granted. */
  lemma {:induction false} MadeFails(plan: seq<Call>, replies: nat -> Reply, at: nat)
    ensures AllGranted(plan, replies, at) <==> LastGranted(Made(plan, replies, at), replies, at)
    decreases |plan|
  {
    if plan != [] && Granted(plan[0], replies(at)) {
      MadeFails(plan[1..], replies, at + 1);
      LastShifts(plan[0], Made(plan[1..], replies, at + 1), replies, at);
    }
  }

  lemma PlanFails(run: Outcome, log: seq<Call>, plan: seq<Call>, replies: nat -> Reply, phase: Phase)
    requires CarriesOut(run, log, plan, replies, phase) && plan != []
    ensures |run.log| > |log| && (run.failed <==> LastDenied(replies, log, run))
  {
    var calls := Made(plan, replies, |log|);
    MadeFails(plan, replies, |log|);
    assert run.log[|run.log| - 1] == calls[|calls| - 1];
  }

  lemma ShrinkFailsIff(v: View, replies: nat -> Reply, log: seq<Call>, run: Outcome)
    requires v.Listed() && v.readyReplicas == v.replicas > v.desired && ShrinksRight(v, replies, log, run)
    ensures run.failed <==> LastDenied(replies, log, run) || Balked(v, replies, log, run)
  {
    var n := v.readyReplicas - 1;
    if v.kind.Plain? || ConditionOf(v.kind, v.members[n]).Out? {
      PlanFails(run, log, RemovalPlan(v, n), replies, ScalingDown);
    } else if ConditionOf(v.kind, v.members[n]).Serving? {
      PlanFails(run, log, [Dismissal(v.kind, n, true)], replies, ScalingDown);
    }
  }

  /** The one call after the last read, or none; `base` is the log before the reconcile. */
  lemma StopFailsIff(v: View, n: nat, replies: nat -> Reply, base: seq<Call>, log: seq<Call>, run: Outcome)
    requires v.Listed() && n < v.readyReplicas == v.replicas <= v.desired
    requires |base| < |log| && log[|log| - 1] == GetPod(n)
    requires StopsRight(v, n, replies(|log| - 1), replies, log, run) && !Fine(v, n, replies(|log| - 1))
    ensures run.failed <==> LastDenied(replies, base, run) || Balked(v, replies, base, run)
  {
    if run.log != log {
      OneCall(v, n, replies(|log| - 1), replies, log, run);
      PlanFails(run, log, [run.log[|log|]], replies, Updating);
    }
  }

  lemma OneCall(v: View, n: nat, reply: Reply, replies: nat -> Reply, log: seq<Call>, run: Outcome)
    requires (v.kind.Plain? || n < |v.members|) && StopsRight(v, n, reply, replies, log, run) && run.log != log
    ensures |run.log| == |log| + 1 && log < run.log && !run.log[|log|].GetPod? && !run.log[|log|].UpdateReplicas?
    ensures CarriesOut(run, log, [run.log[|log|]], replies, Updating)
  {
  }

  /**
   A reconcile returns an error in two cases: the last call it made was not granted, or it stopped at a
   member whose status its manager does not know.
   */
  lemma FailedIff(v: View, replies: nat -> Reply, log: seq<Call>)
    requires v.Listed()
    ensures var run := Drive(v, Start(v), replies, log);
      run.failed <==> LastDenied(replies, log, run) || Balked(v, replies, log, run)
  {
    var run := Drive(v, Start(v), replies, log);
    ReconcileEnds(v, replies, log);
    if v.readyReplicas == v.replicas {
      if v.readyReplicas > v.desired {
        ShrinkFailsIff(v, replies, log, run);
      } else if v.readyReplicas == v.desired {
        ScanFailsIff(v, replies, log, run);
      }
    }
  }

  /** The scan's last read, of a pod that is not in order. */
  lemma ScanStopsAt(v: View, replies: nat -> Reply, log: seq<Call>, run: Outcome) returns (n: nat, read: seq<Call>)
    requires v.Listed() && ScansRight(v, v.readyReplicas, replies, log, run)
    requires InOrder(v, v.readyReplicas, replies, |log|) < v.readyReplicas
    ensures n < v.readyReplicas && |log| < |read| && read[|read| - 1] == GetPod(n)
    ensures StopsRight(v, n, replies(|read| - 1), replies, read, run) && !Fine(v, n, replies(|read| - 1))
  {
    var k := InOrder(v, v.readyReplicas, replies, |log|);
    n, read := v.readyReplicas - 1 - k, log + ReadsDown(v.readyReplicas)[..k + 1];
    NotGoodAt(v, v.readyReplicas, replies, |log|);
  }

  lemma ScanFailsIff(v: View, replies: nat -> Reply, log: seq<Call>, run: Outcome)
    requires v.Listed() && v.readyReplicas == v.replicas == v.desired
    requires ScansRight(v, v.readyReplicas, replies, log, run)
    ensures run.failed <==> LastDenied(replies, log, run) || Balked(v, replies, log, run)
  {
    if InOrder(v, v.readyReplicas, replies, |log|) < v.readyReplicas {
      var n, read := ScanStopsAt(v, replies, log, run);
      StopFailsIff(v, n, replies, log, read, run);
    }
  }

  lemma {:induction false} NotGoodAt(v: View, n: nat, replies: nat -> Reply, at: nat)
    ensures var k := InOrder(v, n, replies, at); k < n ==> !Fine(v, n - 1 - k, replies(at + k))
  {
    if n > 0 && Fine(v, n - 1, replies(at)) {
      NotGoodAt(v, n - 1, replies, at + 1);
    }
  }

  /** What `local` is to be, after the calls from `at` on. */
  predicate IsSent(calls: seq<Call>, at: nat, local: nat, before: nat) {
    && (forall i :: at <= i < |calls| && calls[i].UpdateReplicas? ==> local == calls[i].replicas)
    && ((forall i :: at <= i < |calls| ==> !calls[i].UpdateReplicas?) ==> local == before)
  }

  lemma RemovalSends(v: View, n: nat, replies: nat -> Reply, log: seq<Call>, calls: seq<Call>)
    requires v.kind.Plain? || n < |v.members|
    requires calls == log + Made(RemovalPlan(v, n), replies, |log|)
    ensures IsSent(calls, |log|, if v.kind.Plain? || replies(|log|).Ok? then n else v.replicas, v.replicas)
  {
    var plan, made := RemovalPlan(v, n), Made(RemovalPlan(v, n), replies, |log|);
    var at := if v.kind.Plain? then 0 else 1;
    assert forall i :: 0 <= i < |made| ==> calls[|log| + i] == plan[i];
    PlanUpdates(v, n);
    MadeReaches(plan, replies, |log|);
    if |made| > at {
      assert calls[|log| + at] == UpdateReplicas(n);
    }
  }

  lemma ShrinkSends(v: View, replies: nat -> Reply, log: seq<Call>, run: Outcome)
    requires v.Listed() && v.readyReplicas == v.replicas > v.desired && ShrinksRight(v, replies, log, run)
    ensures IsSent(run.log, |log|, Reconciler.LocalReplicas(v, replies(|log|)), v.replicas)
  {
    var n := v.readyReplicas - 1;
    ShrinkStarts(v);
    if v.kind.Plain? || ConditionOf(v.kind, v.members[n]).Out? {
      RemovalSends(v, n, replies, log, run.log);
    } else if ConditionOf(v.kind, v.members[n]).Serving? {
      MadeReaches([Dismissal(v.kind, n, true)], replies, |log|);
    }
  }

  /** A plan gets past its first call exactly if that is granted. */
  lemma MadeReaches(plan: seq<Call>, replies: nat -> Reply, at: nat)
    requires plan != []
    ensures |Made(plan, replies, at)| > 0 && Made(plan, replies, at) <= plan
    ensures |plan| > 1 ==> (|Made(plan, replies, at)| > 1 <==> Granted(plan[0], replies(at)))
  {
  }

  lemma PlanUpdates(v: View, n: nat)
    requires v.kind.Plain? || n < |v.members|
    ensures var plan, at := RemovalPlan(v, n), if v.kind.Plain? then 0 else 1;
      && |plan| > at && plan[at] == UpdateReplicas(n)
      && forall i :: 0 <= i < |plan| && i != at ==> !plan[i].UpdateReplicas? && !plan[i].GetPod?
  {
    var plan, at, claims := RemovalPlan(v, n), if v.kind.Plain? then 0 else 1, ClaimCalls(v, n, 0);
    forall i | at < i < |plan| ensures !plan[i].UpdateReplicas? && !plan[i].GetPod? {
      assert plan[i] == claims[i - at - 1];
    }
  }

  lemma ScanSends(v: View, replies: nat -> Reply, log: seq<Call>, run: Outcome)
    requires v.Listed() && v.readyReplicas == v.replicas == v.desired
    requires ScansRight(v, v.readyReplicas, replies, log, run)
    ensures forall i :: |log| <= i < |run.log| ==> !run.log[i].UpdateReplicas?
    ensures Reconciler.LocalReplicas(v, replies(|log|)) == v.replicas
  {
    var n := v.readyReplicas;
    var k := InOrder(v, n, replies, |log|);
    if k < n {
      var read := log + ReadsDown(n)[..k + 1];
      if run.log != read {
        OneCall(v, n - 1 - k, replies(|log| + k), replies, read, run);
        assert run.log == read + [run.log[|read|]];
      }
    }
  }

  /** The replica count left in memory is the one sent last, whatever became of it; if none was sent, the old one. */
  lemma LocalReplicasAreSent(v: View, replies: nat -> Reply, log: seq<Call>)
    requires v.Listed()
    ensures IsSent(Drive(v, Start(v), replies, log).log, |log|, Reconciler.LocalReplicas(v, replies(|log|)), v.replicas)
  {
    var run := Drive(v, Start(v), replies, log);
    ReconcileEnds(v, replies, log);
    if v.readyReplicas == v.replicas {
      if v.readyReplicas < v.desired {
        assert run.log[|log|] == UpdateReplicas(v.desired);
      } else if v.readyReplicas > v.desired {
        ShrinkSends(v, replies, log, run);
      } else {
        ScanSends(v, replies, log, run);
      }
    }
  }
}
