/**
 Rolling updates and scaling, in every interleaving of the operator with its environment.

 As long as the update revision and the wishes change at quiet moments only, the operator takes down one
 pod at a time, from the highest ordinal, and only while every higher pod has been seen running, ready,
 updated and back in service by the same reconcile; and it takes one member at a time out of service.
 */
module RollingUpdate {
  import opened Wrappers
  import opened StatefulSets
  import opened Operation

  /** Every pod above one that is missing, or a member that is out, because of the operator is on revision `r`. */
  ghost predicate SafeChange(s: State, r: string) {
    (forall k <- s.h.orphaned :: CarriedAbove(s.w, k, r)) && (forall k <- s.h.offline :: CarriedAbove(s.w, k, r))
  }

  /** Every pod above `k` is on revision `r`. */
  ghost predicate CarriedAbove(w: World, k: nat, r: string) {
    forall m <- w.pods :: k < m < w.replicas ==> w.pods[m].revision == r
  }

  /** The replica count that the wishes come to. */
  function Wanted(s: State): nat {
    Desired(s.cfg.kind, s.w.spec, s.w.factor)
  }

  predicate AtTarget(s: State) {
    s.w.revision != "" && Wanted(s) == s.w.replicas
  }

  /**
   The wish for `d` replicas instead of those there are. To shrink is safe if no member is out because of
   the operator but that of the highest ordinal; to grow, if every pod that comes to stand above one that is
   missing, or a member that is out, is on the update revision.
   */
  ghost predicate SafeWish(s: State, d: nat) {
    if d < s.w.replicas then forall k <- s.h.offline :: k + 1 == s.w.replicas
    else (forall k <- s.h.orphaned :: CarriedBetween(s.w, k, s.w.revision, d))
         && (forall k <- s.h.offline :: CarriedBetween(s.w, k, s.w.revision, d))
  }

  /** Every pod above `k` and below `d` is on revision `r`. */
  ghost predicate CarriedBetween(w: World, k: nat, r: string, d: nat) {
    forall m <- w.pods :: k < m < d ==> w.pods[m].revision == r
  }

  /** A moment at which the target may change: between reconciles, and with no scaling left to do. */
  predicate Quiet(s: State) {
    s.op.Idle? && AtTarget(s)
  }

  /** Events that leave the target alone, or change it at a quiet moment in a way that is safe. */
  ghost predicate KeepsTarget(s: State, e: Event) {
    match e
    case SetSpec(_) => KeepsWish(s, Wanted(Apply(s, e)))
    case SetFactor(_) => KeepsWish(s, Wanted(Apply(s, e)))
    case SetRevision(r) => r == s.w.revision || (Quiet(s) && r != "" && SafeChange(s, r))
    case Begin(_, _, _, cached) => cached.None?
    case _ => true
  }

  ghost predicate KeepsWish(s: State, d: nat) {
    d == Wanted(s) || (Quiet(s) && SafeWish(s, d))
  }

  ghost predicate FixedTarget(s: State, events: seq<Event>) {
    forall k :: 0 <= k < |events| ==> KeepsTarget(Run(s, events[..k]), events[k])
  }

  /** Member `m` counts as back in service. */
  predicate InService(v: View, m: nat) {
    v.kind.Plain? || (m < |v.members| && v.members[m].status == "Up")
  }

  /** Pod `m` was read by this reconcile as running, ready, updated, and its member back in service. */
  ghost predicate SeenInOrder(op: Operator, m: nat)
    requires op.Running?
  {
    m in op.seen && PodReady(op.seen[m]) && !Outdated(op.v, op.seen[m]) && InService(op.v, m)
  }

  /** What holds of pod `m` once the scan has passed it. */
  ghost predicate Passed(s: State, m: nat)
    requires s.op.Running?
  {
    && SeenInOrder(s.op, m)
    && m !in s.h.orphaned
    && (m !in s.h.touched ==> m in s.w.pods && s.w.pods[m] == s.op.seen[m])
    && (s.op.v.revision != "" && m in s.w.pods ==> s.w.pods[m].revision == s.w.revision)
  }

  /** Members read as Up have not been taken out of service since. */
  ghost predicate UpsAreOnline(v: View, h: History) {
    forall m :: 0 <= m < |v.members| && v.members[m].status == "Up" ==> m !in h.offline
  }

  /** The lowest ordinal the scan has passed, or none of them. */
  function Frontier(v: View, pc: Pc): int {
    match pc
    case AtGetPod(n) => n
    case AtPrepare(n, _) => n
    case AtDelete(n, _) => n
    case AtRelease(n, _) => n
    case AtTrim => -1
    case _ => v.replicas
  }

  /** The request a prepare or release state is about to send. */
  predicate RightRequest(v: View, pc: Pc) {
    match pc
    case AtPrepare(n, request) =>
      && n < |v.members| && v.members[n].status == "Up"
      && ((v.kind.Indexer? && request == Decommission(n, false))
          || (v.kind.SearchHead? && request == SetDetention(n, true)))
    case AtRelease(n, request) => v.kind.SearchHead? && request == SetDetention(n, false)
    case _ => true
  }

  /** The scan is under way and `pc` fits what it has seen. */
  ghost predicate MidScan(s: State)
    requires s.op.Running?
  {
    var v, pc := s.op.v, s.op.pc;
    && (pc.AtGetPod? || pc.AtPrepare? || pc.AtDelete? || pc.AtRelease? || pc.AtTrim?)
    && v.readyReplicas == v.replicas == v.desired
    && Frontier(v, pc) < v.replicas
    && UpsAreOnline(v, s.h)
    && RightRequest(v, pc)
    && (forall m :: Frontier(v, pc) < m < v.replicas ==> Passed(s, m))
    && (pc.AtPrepare? || pc.AtDelete? ==>
          && pc.n in s.op.seen && PodReady(s.op.seen[pc.n]) && Outdated(v, s.op.seen[pc.n])
          && (forall k <- s.h.orphaned :: pc.n <= k) && (forall k <- s.h.offline :: pc.n <= k))
    && (pc.AtDelete? ==> pc.pod == s.op.seen[pc.n])
  }

  /** A scaling call is about to be made, of the highest ordinal if it is to shrink. */
  ghost predicate MidScaling(s: State)
    requires s.op.Running?
  {
    var v := s.op.v;
    match s.op.pc
    case AtScaleUp => v.replicas < v.desired
    case AtQuarantine(n, request) =>
      && n + 1 == v.replicas && v.desired < v.replicas && UpsAreOnline(v, s.h)
      && n < |v.members| && v.members[n].status == "Up"
      && ((v.kind.Indexer? && request == Decommission(n, true))
          || (v.kind.SearchHead? && request == SetDetention(n, true)))
    case AtRemoval(n) => n + 1 == v.replicas && v.desired < v.replicas
    case AtScaleDown(n) => n + 1 == v.replicas && v.desired < v.replicas
    case _ => false
  }

  /** The reconcile is over, or only has claims left to delete. */
  predicate PastWrites(pc: Pc) {
    pc.Done? || pc.AtGetClaim? || pc.AtDeleteClaim?
  }

  ghost predicate OperatorInvariant(s: State) {
    match s.op
    case Idle => true
    case Reading(v, _, _) => ViewIsFixed(s, v) && v.replicas == s.w.replicas && !v.kind.Plain? && UpsAreOnline(v, s.h)
    case Running(v, _, pc, seen, _) =>
      && ViewIsFixed(s, v) && v.Listed() && Fits(v, pc)
      && SeenAreOld(s.w, seen)
      && (PastWrites(pc) || (v.replicas == s.w.replicas && (MidScaling(s) || MidScan(s))))
  }

  predicate ViewIsFixed(s: State, v: View) {
    v.kind == s.cfg.kind && (v.revision == "" || v.revision == s.w.revision) && v.desired == Wanted(s)
  }

  /** A pod still carrying the uid that was read carries the revision that was read. */
  ghost predicate SeenAreOld(w: World, seen: map<nat, Pod>) {
    forall n <- seen ::
      && seen[n].uid < w.nextUid
      && (n in w.pods && w.pods[n].uid == seen[n].uid ==> w.pods[n].revision == seen[n].revision)
  }

  /** What the cluster and the history keep. */
  ghost predicate ClusterInvariant(s: State) {
    && s.w.revision != ""
    && (forall n <- s.w.pods :: s.w.pods[n].uid < s.w.nextUid)
    && s.h.orphaned !! s.w.pods.Keys
    && (forall n <- s.h.offline :: n in s.w.members ==> s.w.members[n].status != "Up")
    && AtMostOne(s.h.orphaned) && AtMostOne(s.h.offline)
    && (s.cfg.kind.Plain? ==> s.h.offline == {})
    && (forall k <- s.h.orphaned :: k < s.w.replicas && UpdatedAbove(s, k))
    && (forall k <- s.h.offline :: k < s.w.replicas && UpdatedAbove(s, k))
    && (Wanted(s) < s.w.replicas ==> forall k <- s.h.offline :: k + 1 == s.w.replicas)
  }

  /** Every pod above `k` is on the update revision, up to the replicas there are or are wanted. */
  ghost predicate UpdatedAbove(s: State, k: nat) {
    CarriedAbove(s.w, k, s.w.revision) && CarriedBetween(s.w, k, s.w.revision, Wanted(s))
  }

  ghost predicate AtMostOne(ordinals: set<nat>) {
    forall a, b :: a in ordinals && b in ordinals ==> a == b
  }

  ghost predicate Invariant(s: State) {
    ClusterInvariant(s) && OperatorInvariant(s)
  }

  /** The wishes and the revision change at quiet moments only, and safely. */
  lemma TargetKeepsCluster(s: State, e: Event)
    requires Invariant(s) && KeepsTarget(s, e) && (e.SetSpec? || e.SetFactor? || e.SetRevision?)
    ensures ClusterInvariant(ApplyEnvironment(s, e))
  {
  }

  lemma EnvironmentKeepsCluster(s: State, e: Event)
    requires Invariant(s) && !e.SetSpec? && !e.SetFactor? && !e.SetRevision?
    ensures ClusterInvariant(ApplyEnvironment(s, e))
  {
  }

  lemma EnvironmentKeepsOperator(s: State, e: Event)
    requires Invariant(s) && KeepsTarget(s, e)
    ensures var t := ApplyEnvironment(s, e);
      && t.op == s.op && t.cfg == s.cfg && t.w.replicas == s.w.replicas
      && (!s.op.Idle? ==> Wanted(t) == Wanted(s) && t.w.revision == s.w.revision)
      && (s.op.Running? ==> SeenAreOld(t.w, s.op.seen))
      && t.h.orphaned <= s.h.orphaned && t.h.offline <= s.h.offline
  {
  }

  lemma EnvironmentKeepsPassed(s: State, e: Event, m: nat)
    requires Invariant(s) && KeepsTarget(s, e) && s.op.Running? && m < s.op.v.replicas && Passed(s, m)
    ensures Passed(ApplyEnvironment(s, e), m)
  {
  }

  lemma EnvironmentKeepsScan(s: State, e: Event)
    requires Invariant(s) && KeepsTarget(s, e) && s.op.Running? && !PastWrites(s.op.pc) && MidScan(s)
    ensures MidScan(ApplyEnvironment(s, e))
  {
    var t := ApplyEnvironment(s, e);
    EnvironmentKeepsOperator(s, e);
    forall m | Frontier(t.op.v, t.op.pc) < m < t.op.v.replicas ensures Passed(t, m) {
      EnvironmentKeepsPassed(s, e, m);
    }
  }

  lemma EnvironmentKeeps(s: State, e: Event)
    requires Invariant(s) && KeepsTarget(s, e)
    ensures Invariant(ApplyEnvironment(s, e))
  {
    if e.SetSpec? || e.SetFactor? || e.SetRevision? {
      TargetKeepsCluster(s, e);
    } else {
      EnvironmentKeepsCluster(s, e);
    }
    EnvironmentKeepsOperator(s, e);
    if s.op.Running? && !PastWrites(s.op.pc) && MidScan(s) {
      EnvironmentKeepsScan(s, e);
    }
  }

  lemma BeginKeeps(s: State, e: Event)
    requires Invariant(s) && e.Begin? && KeepsTarget(s, e)
    ensures Invariant(ApplyBegin(s, e))
  {
  }

  /** With everything read, the first call fits. */
  lemma StartKeeps(s: State)
    requires s.op.Running? && ClusterInvariant(s) && ViewIsFixed(s, s.op.v) && s.op.v.Listed() && s.op.seen == map[]
    requires s.op.v.replicas == s.w.replicas && UpsAreOnline(s.op.v, s.h) && s.op.pc == Start(s.op.v)
    ensures Invariant(s)
  {
  }

  lemma ReadKeeps(s: State, reached: bool)
    requires Invariant(s)
    ensures Invariant(ApplyRead(s, reached))
  {
    var t := ApplyRead(s, reached);
    if s.op.Reading? && t.op.Running? {
      ReadMembers(s, reached);
      StartKeeps(t);
    }
  }

  lemma ReadMembers(s: State, reached: bool)
    requires Invariant(s) && s.op.Reading? && ApplyRead(s, reached).op.Running?
    ensures var t := ApplyRead(s, reached);
      && t.w == s.w && t.h == s.h && t.cfg == s.cfg && t.op.seen == map[] && t.op.pc == Start(t.op.v)
      && ViewIsFixed(t, t.op.v) && t.op.v.replicas == t.w.replicas && t.op.v.Listed() && UpsAreOnline(t.op.v, t.h)
  {
  }

  /** An outdated pod has nothing missing or out of service below it. */
  lemma OutdatedIsLowest(s: State, n: nat)
    requires ClusterInvariant(s) && n in s.w.pods && n < s.w.replicas && s.w.pods[n].revision != s.w.revision
    ensures forall k <- s.h.orphaned :: n <= k
    ensures forall k <- s.h.offline :: n <= k
  {
    forall k | k in s.h.orphaned || k in s.h.offline ensures n <= k {
      assert UpdatedAbove(s, k);
    }
  }

  /** A pod found in order has been passed. */
  lemma VisitPasses(s: State, t: State, m: nat)
    requires Invariant(s) && s.op.Running? && s.op.pc.AtGetPod?
    requires t == ApplyCall(s, Acked) && s.op.pc.n in s.w.pods && !t.op.pc.Done?
    requires Frontier(s.op.v, t.op.pc) < m < s.op.v.replicas
    ensures Passed(t, m)
  {
    var n := s.op.pc.n;
    assert t.op.pc == Visit(s.op.v, n, s.w.pods[n]) && t.op.seen == s.op.seen[n := s.w.pods[n]];
    if m > n {
      assert Passed(s, m);
    }
  }

  /** The scan, having found a pod, moves on or stops at it. */
  lemma FoundKeepsScan(s: State, t: State)
    requires Invariant(s) && s.op.Running? && s.op.pc.AtGetPod?
    requires t == ApplyCall(s, Acked) && s.op.pc.n in s.w.pods && !t.op.pc.Done?
    ensures MidScan(t)
  {
    var v, n := s.op.v, s.op.pc.n;
    assert t.op.pc == Visit(v, n, s.w.pods[n]) && t.op.seen == s.op.seen[n := s.w.pods[n]];
    if Outdated(v, s.w.pods[n]) {
      OutdatedIsLowest(s, n);
    }
    forall m | Frontier(v, t.op.pc) < m < v.replicas ensures Passed(t, m) {
      VisitPasses(s, t, m);
    }
  }

  lemma GetPodKeeps(s: State, fate: Fate)
    requires Invariant(s) && s.op.Running? && s.op.pc.AtGetPod?
    ensures Invariant(ApplyCall(s, fate))
  {
    var t := ApplyCall(s, fate);
    assert t.w == s.w && t.h == s.h;
    assert ClusterInvariant(t);
    if fate.Acked? && s.op.pc.n in s.w.pods && !t.op.pc.Done? {
      FoundKeepsScan(s, t);
    }
  }

  /** Member `n` is out because of the operator, and has status `status`. */
  predicate Asked(s: State, t: State, n: nat, status: string) {
    && n in s.w.members && t.cfg == s.cfg
    && t.w == s.w.(members := s.w.members[n := s.w.members[n].(status := status)])
    && t.h == s.h.(offline := s.h.offline + {n})
  }

  lemma AskingKeepsCluster(s: State, t: State, n: nat, status: string)
    requires ClusterInvariant(s) && !s.cfg.kind.Plain? && n < s.w.replicas && UpdatedAbove(s, n)
    requires (forall m <- s.h.offline :: m == n) && (Wanted(s) < s.w.replicas ==> n + 1 == s.w.replicas)
    requires Asked(s, t, n, status) && status != "Up"
    ensures ClusterInvariant(t)
  {
  }

  /** The call that asks a member out ends the reconcile, and does what it asks or nothing. */
  lemma AskEffect(s: State, fate: Fate) returns (t: State, status: string)
    requires Invariant(s) && s.op.Running? && (s.op.pc.AtPrepare? || s.op.pc.AtQuarantine?)
    ensures t == ApplyCall(s, fate)
    ensures t.op.Running? && t.op.pc.Done? && t.op.v == s.op.v && t.op.seen == s.op.seen && status != "Up"
    ensures (t.w == s.w && t.h == s.h && t.cfg == s.cfg) || Asked(s, t, s.op.pc.n, status)
  {
    t := ApplyCall(s, fate);
    status := if s.op.v.kind.Indexer? then "Decommissioning" else "ManualDetention";
  }

  /** Taking a member out of service. */
  lemma PrepareKeeps(s: State, fate: Fate)
    requires Invariant(s) && s.op.Running? && s.op.pc.AtPrepare?
    ensures Invariant(ApplyCall(s, fate))
  {
    var t, status := AskEffect(s, fate);
    NoneAboveIsOut(s, s.op.pc.n);
    if Asked(s, t, s.op.pc.n, status) {
      AskingKeepsCluster(s, t, s.op.pc.n, status);
    }
  }

  /** Deleting a pod. */
  lemma DeleteKeeps(s: State, fate: Fate)
    requires Invariant(s) && s.op.Running? && s.op.pc.AtDelete?
    ensures Invariant(ApplyCall(s, fate))
  {
    NoneAboveIsOut(s, s.op.pc.n);
  }

  /** Before pod `n` is recycled every ordinal above is updated, and none is out of service or missing. */
  lemma NoneAboveIsOut(s: State, n: nat)
    requires Invariant(s) && s.op.Running? && (s.op.pc.AtPrepare? || s.op.pc.AtDelete?) && s.op.pc.n == n
    ensures CarriedAbove(s.w, n, s.w.revision)
    ensures forall m <- s.h.orphaned :: m == n
    ensures !s.cfg.kind.Plain? ==> forall m <- s.h.offline :: m == n
  {
    forall m | n < m < s.w.replicas ensures m !in s.h.orphaned
      ensures m in s.w.pods ==> s.w.pods[m].revision == s.w.revision
      ensures !s.cfg.kind.Plain? ==> m !in s.h.offline
    {
      assert Passed(s, m);
    }
  }

  lemma ScaleUpKeeps(s: State, fate: Fate)
    requires Invariant(s) && s.op.Running? && s.op.pc.AtScaleUp?
    ensures Invariant(ApplyCall(s, fate))
  {
  }

  lemma QuarantineKeeps(s: State, fate: Fate)
    requires Invariant(s) && s.op.Running? && s.op.pc.AtQuarantine?
    ensures Invariant(ApplyCall(s, fate))
  {
    var t, status := AskEffect(s, fate);
    if Asked(s, t, s.op.pc.n, status) {
      AskingKeepsCluster(s, t, s.op.pc.n, status);
    }
  }

  lemma RemovalKeeps(s: State, fate: Fate)
    requires Invariant(s) && s.op.Running? && s.op.pc.AtRemoval?
    ensures Invariant(ApplyCall(s, fate))
  {
  }

  lemma ScaleDownKeeps(s: State, fate: Fate)
    requires Invariant(s) && s.op.Running? && s.op.pc.AtScaleDown?
    ensures Invariant(ApplyCall(s, fate))
  {
  }

  lemma ClaimCallKeeps(s: State, fate: Fate)
    requires Invariant(s) && s.op.Running? && (s.op.pc.AtGetClaim? || s.op.pc.AtDeleteClaim?)
    ensures Invariant(ApplyCall(s, fate))
  {
  }

  lemma ReleaseKeeps(s: State, fate: Fate)
    requires Invariant(s) && s.op.Running? && s.op.pc.AtRelease?
    ensures Invariant(ApplyCall(s, fate))
  {
  }

  lemma TrimKeeps(s: State, fate: Fate)
    requires Invariant(s) && s.op.Running? && s.op.pc.AtTrim?
    ensures Invariant(ApplyCall(s, fate))
  {
  }

  lemma CallKeeps(s: State, fate: Fate)
    requires Invariant(s)
    ensures Invariant(ApplyCall(s, fate))
  {
    if s.op.Running? && !s.op.pc.Done? {
      match s.op.pc {
        case AtGetPod(_) => GetPodKeeps(s, fate);
        case AtPrepare(_, _) => PrepareKeeps(s, fate);
        case AtDelete(_, _) => DeleteKeeps(s, fate);
        case AtRelease(_, _) => ReleaseKeeps(s, fate);
        case AtTrim => TrimKeeps(s, fate);
        case AtGetClaim(_, _) => ClaimCallKeeps(s, fate);
        case AtDeleteClaim(_, _) => ClaimCallKeeps(s, fate);
        case AtScaleUp => ScaleUpKeeps(s, fate);
        case AtQuarantine(_, _) => QuarantineKeeps(s, fate);
        case AtRemoval(_) => RemovalKeeps(s, fate);
        case AtScaleDown(_) => ScaleDownKeeps(s, fate);
      }
    }
  }

  lemma StepKeeps(s: State, e: Event)
    requires Invariant(s) && KeepsTarget(s, e)
    ensures Invariant(Apply(s, e))
  {
    match e
    case Begin(_, _, _, _) => BeginKeeps(s, e);
    case ReadMember(reached) => ReadKeeps(s, reached);
    case MakeCall(fate) => CallKeeps(s, fate);
    case Return =>
    case Crash =>
    case _ => EnvironmentKeeps(s, e);
  }

  /** The invariant is kept from any state that has it, in particular from a fresh one. */
  lemma {:induction false} RunKeeps(s: State, events: seq<Event>)
    requires Invariant(s) || (Fresh(s) && AtTarget(s))
    requires FixedTarget(s, events)
    ensures Invariant(Run(s, events))
    decreases |events|
  {
    if events != [] {
      var k := |events| - 1;
      forall j | 0 <= j < k ensures KeepsTarget(Run(s, events[..k][..j]), events[..k][j]) {
        assert events[..k][..j] == events[..j];
      }
      RunKeeps(s, events[..k]);
      StepKeeps(Run(s, events[..k]), events[k]);
    }
  }

  lemma {:induction false} AtMostOneHasSize(ordinals: set<nat>)
    requires AtMostOne(ordinals)
    ensures |ordinals| <= 1
  {
    if ordinals != {} {
      var a :| a in ordinals;
      assert ordinals == {a};
    }
  }

  /** At most one pod the operator deleted is missing, and at most one member is out because of it. */
  lemma {:induction false} OneAtATime(s: State, events: seq<Event>)
    requires Fresh(s) && AtTarget(s) && FixedTarget(s, events)
    ensures var t := Run(s, events);
      && |t.h.orphaned| <= 1 && |t.h.offline| <= 1
      && forall n <- t.h.orphaned :: n !in t.w.pods
  {
    RunKeeps(s, events);
    AtMostOneHasSize(Run(s, events).h.orphaned);
    AtMostOneHasSize(Run(s, events).h.offline);
  }

  /** The operator's own step `e` removes pod `n` from the cluster. */
  predicate OperatorDeletes(s: State, e: Event, n: nat) {
    e.MakeCall? && n in s.w.pods && n !in Apply(s, e).w.pods
  }

  /** The operator's own step `e` asks member `n` to go out of service, whatever becomes of the request. */
  predicate AsksOut(s: State, e: Event, n: nat) {
    e.MakeCall? && s.op.Running? && !s.op.pc.Done? && Fits(s.op.v, s.op.pc)
    && var call := Issue(s.op.v, s.op.pc);
    (call.Decommission? && call.n == n) || (call.SetDetention? && call.detained && call.n == n)
  }

  /** The operator's own step `e` takes member `n` out of service. */
  predicate TakesOut(s: State, e: Event, n: nat) {
    e.MakeCall? && n !in s.h.offline && n in Apply(s, e).h.offline
  }

  /** What this reconcile knows of every ordinal above `n`. */
  ghost predicate AboveInOrder(t: State, n: nat)
    requires t.op.Running?
  {
    forall m :: n < m < t.w.replicas ==>
      && SeenInOrder(t.op, m)
      && (m !in t.h.touched ==> m in t.w.pods && t.w.pods[m] == t.op.seen[m])
      && (m in t.w.pods ==> t.w.pods[m].revision == t.w.revision)
  }

  lemma ScanPassedAbove(t: State, n: nat)
    requires Invariant(t) && t.op.Running? && (t.op.pc.AtPrepare? || t.op.pc.AtDelete?) && t.op.pc.n == n
    ensures AboveInOrder(t, n)
  {
    forall m | n < m < t.w.replicas
      ensures SeenInOrder(t.op, m)
      ensures m !in t.h.touched ==> m in t.w.pods && t.w.pods[m] == t.op.seen[m]
      ensures m in t.w.pods ==> t.w.pods[m].revision == t.w.revision
    {
      assert Passed(t, m);
    }
  }

  /** Only the delete call, and only on the pod that was read, removes a pod. */
  lemma DeleterIsAtDelete(t: State, e: Event, n: nat)
    requires Invariant(t) && OperatorDeletes(t, e, n)
    ensures t.op.Running? && t.op.pc.AtDelete? && t.op.pc.n == n
    ensures t.w.pods[n].uid == t.op.pc.pod.uid
  {
  }

  lemma AskerIsAtPrepare(t: State, e: Event, n: nat)
    requires Invariant(t) && AsksOut(t, e, n)
    ensures t.op.Running? && (t.op.pc.AtPrepare? || (t.op.pc.AtQuarantine? && MidScaling(t))) && t.op.pc.n == n
  {
  }

  /** Members go out of service only by such requests. */
  lemma TakerAsks(t: State, e: Event, n: nat)
    requires Invariant(t) && TakesOut(t, e, n)
    ensures AsksOut(t, e, n)
  {
  }

  /** The state in which pod `n` may be deleted. */
  ghost predicate MayDelete(t: State, n: nat) {
    && t.op.Running? && n in t.op.seen && n in t.w.pods && t.op.seen[n].uid == t.w.pods[n].uid
    && PodReady(t.op.seen[n]) && t.w.pods[n].revision != t.w.revision
    && t.h.orphaned == {}
    && AboveInOrder(t, n)
  }

  /** The state in which member `n` may be taken out of service. */
  ghost predicate MayTakeOut(t: State, n: nat) {
    && t.op.Running? && !t.op.v.kind.Plain?
    && (forall m :: n <= m < t.w.replicas ==> m < |t.op.v.members| && t.op.v.members[m].status == "Up")
    && t.h.offline == {}
    && AboveInOrder(t, n)
  }

  lemma InvariantDeletesSafely(t: State, e: Event, n: nat)
    requires Invariant(t) && OperatorDeletes(t, e, n)
    ensures MayDelete(t, n)
  {
    DeleterIsAtDelete(t, e, n);
    NoneAboveIsOut(t, n);
    ScanPassedAbove(t, n);
    assert forall m <- t.h.orphaned :: m == n;
  }

  lemma ScanSawUpAbove(t: State, n: nat)
    requires Invariant(t) && t.op.Running? && t.op.pc.AtPrepare? && t.op.pc.n == n
    ensures forall m :: n <= m < t.w.replicas ==> m < |t.op.v.members| && t.op.v.members[m].status == "Up"
  {
    forall m | n < m < t.w.replicas ensures m < |t.op.v.members| && t.op.v.members[m].status == "Up" {
      assert Passed(t, m);
    }
  }

  lemma InvariantTakesOutSafely(t: State, e: Event, n: nat)
    requires Invariant(t) && AsksOut(t, e, n)
    ensures MayTakeOut(t, n)
  {
    AskerIsAtPrepare(t, e, n);
    if t.op.pc.AtPrepare? {
      NoneAboveIsOut(t, n);
      ScanPassedAbove(t, n);
      ScanSawUpAbove(t, n);
    }
    assert forall m <- t.h.offline :: m == n;
  }

  /**
   Whatever the interleaving, a pod is deleted only when it is the very pod that was read, it was
   ready and outdated, every higher pod was read in order by this reconcile (and, if nothing has
   touched it since, still is), and no pod deleted earlier is still missing.
   */
  lemma {:induction false} DeletionIsSafe(s: State, events: seq<Event>, e: Event, n: nat)
    requires Fresh(s) && AtTarget(s) && FixedTarget(s, events)
    requires OperatorDeletes(Run(s, events), e, n)
    ensures MayDelete(Run(s, events), n)
  {
    RunKeeps(s, events);
    InvariantDeletesSafely(Run(s, events), e, n);
  }

  /**
   A member is asked to go out of service, and so taken out, for a recycle or to be scaled away, only when
   it and every higher member were read as Up by this reconcile, every higher pod was read in order, and no
   member is still out because of the operator.
   */
  lemma {:induction false} RequestIsSafe(s: State, events: seq<Event>, e: Event, n: nat)
    requires Fresh(s) && AtTarget(s) && FixedTarget(s, events)
    ensures TakesOut(Run(s, events), e, n) ==> AsksOut(Run(s, events), e, n)
    ensures AsksOut(Run(s, events), e, n) ==> MayTakeOut(Run(s, events), n)
  {
    var t := Run(s, events);
    RunKeeps(s, events);
    if TakesOut(t, e, n) {
      TakerAsks(t, e, n);
    }
    if AsksOut(t, e, n) {
      InvariantTakesOutSafely(t, e, n);
    }
  }
}
