/**
 Progress: when nothing fails and the environment answers, the operator reaches Ready.

 A round is one undisturbed reconcile of a calm cluster, after which the environment calms down again:
 missing pods are recreated from the current revision, and every member in transition takes a step. The
 environment may also take its time over that, while reconciles find the counts of replicas lagging.
 */
module Progress {
  import opened Wrappers
  import opened StatefulSets
  import opened Operation

  /** Every pod is there and ready, and every member can be asked. */
  ghost predicate Calm(cfg: Config, w: World) {
    && w.revision != ""
    && (forall n: nat :: n < w.replicas ==> n in w.pods && PodReady(w.pods[n]))
    && (!cfg.kind.Plain? ==> w.replicas > 0 && forall n: nat :: n < w.replicas ==> n in w.members)
  }

  function Goal(cfg: Config, w: World): nat {
    Desired(cfg.kind, w.spec, w.factor)
  }

  predicate IsOutdated(w: World, n: nat) {
    n in w.pods && w.pods[n].revision != w.revision
  }

  /** Member `n` has to go: to be scaled away, or for its pod to be recycled. */
  predicate Leaving(cfg: Config, w: World, n: nat) {
    if Goal(cfg, w) < w.replicas then n + 1 == w.replicas else IsOutdated(w, n)
  }

  predicate IsDown(status: string) {
    status == "GracefulShutdown" || status == "Down"
  }

  predicate Known(kind: Kind, status: string) {
    match kind
    case Plain => true
    case Indexer => status == "Up" || status == "Decommissioning" || status == "ReassigningPrimaries" || IsDown(status)
    case SearchHead => status == "Up" || status == "ManualDetention"
  }

  /** What a peer may do in one round: a decommissioned one goes down, and stays down while it is to leave. */
  predicate PeerMoves(leaving: bool, before: string, after: string) {
    if before == "Up" then after == "Up"
    else if before == "Decommissioning" then
      after == "ReassigningPrimaries" || IsDown(after) || (!leaving && after == "Up")
    else if before == "ReassigningPrimaries" then IsDown(after) || (!leaving && after == "Up")
    else if IsDown(before) then if leaving then IsDown(after) else after == "Up"
    else Known(Indexer, after)
  }

  /** What a search head may do in one round: one in detention works off its searches. */
  predicate HeadMoves(leaving: bool, before: Member, after: Member) {
    if before.status == "Up" then after.status == "Up"
    else if before.status == "ManualDetention" then
      if leaving then
        after.status == "ManualDetention"
        && (Searches(after) < Searches(before) || Searches(after) == Searches(before) == 0)
      else after.status == "ManualDetention" || after.status == "Up"
    else Known(SearchHead, after.status)
  }

  function Searches(m: Member): nat {
    m.historicalSearches + m.realtimeSearches
  }

  predicate Moves(kind: Kind, leaving: bool, before: Member, after: Member) {
    match kind
    case Plain => true
    case Indexer => PeerMoves(leaving, before.status, after.status)
    case SearchHead => HeadMoves(leaving, before, after)
  }

  /** The environment's part of a round, from the cluster `t` a reconcile left to the next calm one. */
  ghost predicate Answers(cfg: Config, t: World, u: World) {
    && u.replicas == t.replicas && u.spec == t.spec && u.factor == t.factor && u.revision == t.revision
    && Calm(cfg, u)
    && (forall n: nat :: n < t.replicas ==>
          u.pods[n].revision == if n in t.pods then t.pods[n].revision else t.revision)
    && (!cfg.kind.Plain? ==> forall n: nat :: n < t.replicas && n in t.members ==>
          Moves(cfg.kind, Leaving(cfg, t, n), t.members[n], u.members[n]))
  }

  /** The environment did any part of its work, or none: pods may still be missing, and members may have stayed. */
  ghost predicate Advances(cfg: Config, t: World, u: World) {
    && u.replicas == t.replicas && u.spec == t.spec && u.factor == t.factor && u.revision == t.revision
    && (forall n: nat :: n < t.replicas && n in u.pods ==>
          u.pods[n].revision == if n in t.pods then t.pods[n].revision else t.revision)
    && (!cfg.kind.Plain? ==> forall n: nat :: n < t.replicas && n in t.members ==>
          n in u.members && (Stays(t.members[n], u.members[n]) || Moved(cfg, t, u, n)))
  }

  predicate Stays(before: Member, after: Member) {
    after.status == before.status && Searches(after) == Searches(before)
  }

  predicate Moved(cfg: Config, t: World, u: World, n: nat) {
    n in t.members ==> n in u.members && Moves(cfg.kind, Leaving(cfg, t, n), t.members[n], u.members[n])
  }

  /** How far a member is from where it should be. */
  function Stage(kind: Kind, leaving: bool, m: Member): nat {
    match kind
    case Plain => 0
    case Indexer =>
      if !Known(Indexer, m.status) then 4
      else
        var left := if m.status == "Up" then 3 else if m.status == "Decommissioning" then 2
                    else if m.status == "ReassigningPrimaries" then 1 else 0;
        if leaving then left
        else if m.status == "Up" then 0 else left + 1
    case SearchHead =>
      if m.status == "Up" then if leaving then 2 else 0
      else if m.status == "ManualDetention" then if leaving && Searches(m) == 0 then 0 else 1
      else 3
  }

  function Backlog(kind: Kind, leaving: bool, m: Member): nat {
    if kind.SearchHead? && leaving && m.status == "ManualDetention" then Searches(m) else 0
  }

  /** The stage of a member that cannot be asked. */
  const FARTHEST := 5

  function StageOf(cfg: Config, w: World, n: nat): nat {
    if n in w.members then Stage(cfg.kind, Leaving(cfg, w, n), w.members[n])
    else if cfg.kind.Plain? then 0 else FARTHEST
  }

  function BacklogOf(cfg: Config, w: World, n: nat): nat {
    if n in w.members then Backlog(cfg.kind, Leaving(cfg, w, n), w.members[n]) else 0
  }

  function CountOutdated(w: World, n: nat): nat {
    if n == 0 then 0 else CountOutdated(w, n - 1) + if IsOutdated(w, n - 1) then 1 else 0
  }

  function SumStages(cfg: Config, w: World, n: nat): nat {
    if n == 0 then 0 else SumStages(cfg, w, n - 1) + StageOf(cfg, w, n - 1)
  }

  function SumBacklog(cfg: Config, w: World, n: nat): nat {
    if n == 0 then 0 else SumBacklog(cfg, w, n - 1) + BacklogOf(cfg, w, n - 1)
  }

  /** Compared lexicographically. */
  datatype Measure = Measure(distance: nat, outdated: nat, stages: nat, backlog: nat)

  predicate Less(a: Measure, b: Measure) {
    || a.distance < b.distance
    || (a.distance == b.distance && a.outdated < b.outdated)
    || (a.distance == b.distance && a.outdated == b.outdated && a.stages < b.stages)
    || (a.distance == b.distance && a.outdated == b.outdated && a.stages == b.stages && a.backlog < b.backlog)
  }

  function Distance(cfg: Config, w: World): nat {
    if Goal(cfg, w) < w.replicas then w.replicas - Goal(cfg, w) else Goal(cfg, w) - w.replicas
  }

  function MeasureOf(cfg: Config, w: World): Measure {
    Measure(Distance(cfg, w), CountOutdated(w, w.replicas), SumStages(cfg, w, w.replicas),
            SumBacklog(cfg, w, w.replicas))
  }

  /** Reads the remaining members. */
  function ReadAll(s: State): State
    decreases if s.op.Reading? then s.op.count - |s.op.v.members| else 0
  {
    if !s.op.Reading? || s.op.count < s.op.v.readyReplicas || |s.op.v.members| >= s.op.count then s
    else ReadAll(ApplyRead(s, true))
  }

  predicate Calling(s: State) {
    s.op.Running? && !s.op.pc.Done? && Fits(s.op.v, s.op.pc)
  }

  /** The cluster and the place in the reconcile after an acknowledged call. */
  lemma CallEffect(s: State)
    requires Calling(s)
    ensures var t := ApplyCall(s, Acked);
      var call := Issue(s.op.v, s.op.pc);
      var effect := Effect(s.w, call, s.op.version);
      && t.cfg == s.cfg && t.op.Running? && t.op.v == s.op.v && t.op.version == s.op.version
      && t.w == (if effect.Some? then effect.value else s.w)
      && t.op.pc == Step(s.op.v, s.op.pc, if effect.Some? then ReplyTo(s.w, call) else Failed)
      && Fits(t.op.v, t.op.pc)
  {
  }

  lemma StepDescends(v: View, pc: Pc, reply: Reply)
    requires Fits(v, pc) && !pc.Done?
    ensures Rank(v, Step(v, pc, reply)) < Rank(v, pc)
  {
  }

  /** Makes the remaining calls, each acknowledged. */
  function Finish(s: State): State
    decreases if s.op.Running? then Rank(s.op.v, s.op.pc) else 0
  {
    if !Calling(s) then s
    else
      CallDescends(s);
      Finish(ApplyCall(s, Acked))
  }

  lemma CallDescends(s: State)
    requires Calling(s)
    ensures var t := ApplyCall(s, Acked); t.op.Running? && Rank(t.op.v, t.op.pc) < Rank(s.op.v, s.op.pc)
  {
    CallEffect(s);
    var call := Issue(s.op.v, s.op.pc);
    StepDescends(s.op.v, s.op.pc, if Effect(s.w, call, s.op.version).Some? then ReplyTo(s.w, call) else Failed);
  }

  /** A reconcile that finds the given counts of ready and of existing replicas, and in which no call fails. */
  function ReconcileSeeing(s: State, ready: nat, seen: nat): State {
    Finish(ReadAll(ApplyBegin(s, Begin(ready, seen, true, None))))
  }

  /** The counts are as they should be. */
  function Reconcile(s: State): State {
    ReconcileSeeing(s, s.w.replicas, s.w.replicas)
  }

  predicate ReportsReady(t: State) {
    t.op.Running? && t.op.pc == Done(Ready, false)
  }

  /** The reconcile is a run: a start, the readings and the calls. */
  lemma {:induction false} FinishIsARun(s: State) returns (events: seq<Event>)
    ensures Run(s, events) == Finish(s)
    ensures forall e <- events :: e == MakeCall(Acked)
    decreases if s.op.Running? then Rank(s.op.v, s.op.pc) else 0
  {
    if !Calling(s) {
      events := [];
    } else {
      CallDescends(s);
      var rest := FinishIsARun(ApplyCall(s, Acked));
      events := [MakeCall(Acked)] + rest;
      RunCons(s, MakeCall(Acked), rest);
    }
  }

  lemma {:induction false} ReadsAreARun(s: State) returns (events: seq<Event>)
    ensures Run(s, events) == ReadAll(s)
    ensures forall e <- events :: e == ReadMember(true)
    decreases if s.op.Reading? then s.op.count - |s.op.v.members| else 0
  {
    if !s.op.Reading? || s.op.count < s.op.v.readyReplicas || |s.op.v.members| >= s.op.count {
      events := [];
    } else {
      var rest := ReadsAreARun(ApplyRead(s, true));
      events := [ReadMember(true)] + rest;
      RunCons(s, ReadMember(true), rest);
    }
  }

  /** An undisturbed reconcile is one of the runs of Operation. */
  lemma ReconcileIsARun(s: State) returns (events: seq<Event>)
    ensures Run(s, events) == Reconcile(s)
    ensures forall e <- events :: e.Begin? || e == ReadMember(true) || e == MakeCall(Acked)
  {
    var begin := Begin(s.w.replicas, s.w.replicas, true, None);
    var s1 := ApplyBegin(s, begin);
    var readings := ReadsAreARun(s1);
    var calls := FinishIsARun(ReadAll(s1));
    RunAppend(s1, readings, calls);
    RunCons(s, begin, readings + calls);
    events := [begin] + (readings + calls);
  }
}
