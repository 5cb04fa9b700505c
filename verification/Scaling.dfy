/**
 Scaling and draining in every run: with the spec, the replication factor and the revision changing
 at will, and any call failing.
 */
module Scaling {
  import opened Wrappers
  import opened Names
  import opened StatefulSets
  import opened Operation

  /** The member list said that member `n` had been taken out of service and drained. */
  predicate Drained(v: View, n: nat) {
    match v.kind
    case Plain => true
    case Indexer => n < |v.members| && (v.members[n].status == "GracefulShutdown" || v.members[n].status == "Down")
    case SearchHead =>
      && n < |v.members| && v.members[n].status == "ManualDetention"
      && v.members[n].historicalSearches == 0 && v.members[n].realtimeSearches == 0
  }

  /** The request that removes member `n` from its Splunk cluster. */
  function Removal(v: View, n: nat): Call
    requires v.kind.Indexer? ==> n < |v.members|
  {
    if v.kind.Indexer? then RemovePeer(v.members[n].id) else RemoveMember(n)
  }

  predicate RemovalAcked(v: View, n: nat, acked: seq<Call>) {
    v.kind.Plain? || (n < |v.members| && Removal(v, n) in acked)
  }

  /** Ordinal `n` is the highest, and one too many. */
  predicate Surplus(v: View, n: nat) {
    n + 1 == v.readyReplicas == v.replicas && v.desired <= n
  }

  /** The held StatefulSet, if its version is still the stored one, has the stored replica count. */
  predicate HeldIsStored(w: World, v: View, version: Option<nat>) {
    version.Some? ==> version.value <= w.stsVersion && (version.value == w.stsVersion ==> v.replicas == w.replicas)
  }

  predicate ViewIsOurs(s: State, v: View) {
    v.kind == s.cfg.kind && v.name == s.cfg.name && v.templates == s.cfg.templates
  }

  /** A request about a Splunk member, which touches no Kubernetes object. */
  predicate MembersOnly(request: Call) {
    request.Decommission? || request.SetDetention?
  }

  /** What each state of the machine knows. */
  ghost predicate Knows(s: State)
    requires s.op.Running?
  {
    var v, pc := s.op.v, s.op.pc;
    match pc
    case AtScaleUp => v.replicas < v.desired && HeldIsStored(s.w, v, s.op.version)
    case AtQuarantine(n, request) => Surplus(v, n) && HeldIsStored(s.w, v, s.op.version) && MembersOnly(request)
    case AtRemoval(n) => Surplus(v, n) && Drained(v, n) && HeldIsStored(s.w, v, s.op.version)
    case AtScaleDown(n) =>
      Surplus(v, n) && Drained(v, n) && RemovalAcked(v, n, s.op.acked) && HeldIsStored(s.w, v, s.op.version)
    case AtGetClaim(n, _) => s.w.replicas == n
    case AtDeleteClaim(n, _) => s.w.replicas == n
    case AtDelete(n, _) => Drained(v, n)
    case AtPrepare(_, request) => MembersOnly(request)
    case AtRelease(_, request) => MembersOnly(request)
    case _ => true
  }

  ghost predicate Invariant(s: State) {
    match s.op
    case Idle => true
    case Reading(v, version, _) => ViewIsOurs(s, v) && HeldIsStored(s.w, v, version)
    case Running(v, version, pc, seen, acked) =>
      ViewIsOurs(s, v) && v.Listed() && Fits(v, pc) && Knows(s)
  }

  lemma StartKnows(s: State)
    requires s.op.Running? && ViewIsOurs(s, s.op.v) && s.op.v.Listed() && s.op.pc == Start(s.op.v) && s.op.acked == []
    requires HeldIsStored(s.w, s.op.v, s.op.version)
    ensures Invariant(s)
  {
  }

  lemma ClaimCallKeeps(s: State, fate: Fate)
    requires Invariant(s) && s.op.Running? && (s.op.pc.AtGetClaim? || s.op.pc.AtDeleteClaim?)
    ensures Invariant(ApplyCall(s, fate))
  {
  }

  lemma ScaleCallKeeps(s: State, fate: Fate)
    requires Invariant(s) && s.op.Running?
    requires s.op.pc.AtScaleUp? || s.op.pc.AtQuarantine? || s.op.pc.AtRemoval? || s.op.pc.AtScaleDown?
    ensures Invariant(ApplyCall(s, fate))
  {
  }

  lemma VisitKnows(v: View, n: nat, pod: Pod)
    requires v.kind.Plain? || n < |v.members|
    ensures var pc := Visit(v, n, pod);
      && (pc.AtDelete? ==> pc.n == n && Drained(v, n))
      && (pc.AtPrepare? || pc.AtRelease? ==> MembersOnly(pc.request))
      && (pc.Done? || pc.AtDelete? || pc.AtPrepare? || pc.AtRelease? || pc.AtGetPod? || pc.AtTrim?)
      && (pc.Done? ==> pc.phase != ScalingDown)
  {
  }

  lemma GetPodKeeps(s: State, fate: Fate)
    requires Invariant(s) && s.op.Running? && s.op.pc.AtGetPod?
    ensures Invariant(ApplyCall(s, fate))
  {
    if s.op.pc.n in s.w.pods {
      VisitKnows(s.op.v, s.op.pc.n, s.w.pods[s.op.pc.n]);
    }
  }

  lemma ScanCallKeeps(s: State, fate: Fate)
    requires Invariant(s) && s.op.Running?
    requires s.op.pc.AtPrepare? || s.op.pc.AtDelete? || s.op.pc.AtRelease? || s.op.pc.AtTrim?
    ensures Invariant(ApplyCall(s, fate))
  {
  }

  lemma CallKeeps(s: State, fate: Fate)
    requires Invariant(s)
    ensures Invariant(ApplyCall(s, fate))
  {
    if s.op.Running? {
      match s.op.pc {
        case Done(_, _) =>
        case AtGetClaim(_, _) => ClaimCallKeeps(s, fate);
        case AtDeleteClaim(_, _) => ClaimCallKeeps(s, fate);
        case AtScaleUp => ScaleCallKeeps(s, fate);
        case AtQuarantine(_, _) => ScaleCallKeeps(s, fate);
        case AtRemoval(_) => ScaleCallKeeps(s, fate);
        case AtScaleDown(_) => ScaleCallKeeps(s, fate);
        case AtGetPod(_) => GetPodKeeps(s, fate);
        case _ => ScanCallKeeps(s, fate);
      }
    }
  }

  lemma BeginKeeps(s: State, e: Event)
    requires Invariant(s) && e.Begin?
    ensures Invariant(ApplyBegin(s, e))
  {
    var t := ApplyBegin(s, e);
    if t.op.Running? && s.op.Idle? {
      StartKnows(t);
    }
  }

  lemma ReadKeeps(s: State, reached: bool)
    requires Invariant(s)
    ensures Invariant(ApplyRead(s, reached))
  {
    var t := ApplyRead(s, reached);
    if t.op.Running? && s.op.Reading? {
      StartKnows(t);
    }
  }

  /** The environment leaves alone everything the invariant speaks of. */
  lemma EnvironmentFrame(s: State, e: Event)
    ensures var t := ApplyEnvironment(s, e);
      && t.op == s.op && t.cfg == s.cfg && s.w.claims <= t.w.claims
      && t.w.replicas == s.w.replicas && t.w.stsVersion == s.w.stsVersion
  {
  }

  lemma FrameKeeps(s: State, t: State)
    requires Invariant(s)
    requires t.op == s.op && t.cfg == s.cfg && s.w.claims <= t.w.claims
    requires t.w.replicas == s.w.replicas && t.w.stsVersion == s.w.stsVersion
    ensures Invariant(t)
  {
  }

  lemma EnvironmentKeeps(s: State, e: Event)
    requires Invariant(s)
    ensures Invariant(ApplyEnvironment(s, e))
  {
    EnvironmentFrame(s, e);
    FrameKeeps(s, ApplyEnvironment(s, e));
  }

  lemma StepKeeps(s: State, e: Event)
    requires Invariant(s)
    ensures Invariant(Apply(s, e))
  {
    match e
    case Begin(_, _, _, _) => BeginKeeps(s, e);
    case ReadMember(reached) => ReadKeeps(s, reached);
    case MakeCall(fate) => CallKeeps(s, fate);
    case Return =>
    case Crash =>
    case _ => EnvironmentKeeps(s, e);
  }

  lemma {:induction false} RunKeeps(s: State, events: seq<Event>)
    requires s.op.Idle?
    ensures Invariant(Run(s, events))
    ensures Run(s, events).cfg == s.cfg
    decreases |events|
  {
    if events != [] {
      RunKeeps(s, events[..|events| - 1]);
      StepKeeps(Run(s, events[..|events| - 1]), events[|events| - 1]);
    }
  }

  /** What must have happened for a StatefulSet to shrink to `n` replicas. */
  ghost predicate MayShrink(t: State, n: nat) {
    && t.op.Running? && t.op.pc == AtScaleDown(n)
    && t.w.replicas == n + 1
    && t.op.v.desired <= n
    && Drained(t.op.v, n) && RemovalAcked(t.op.v, n, t.op.acked)
  }

  lemma InvariantShrinksInOrder(t: State, e: Event)
    requires Invariant(t) && Apply(t, e).w.replicas < t.w.replicas
    ensures MayShrink(t, Apply(t, e).w.replicas)
  {
  }

  /**
   A StatefulSet only ever loses its highest ordinal, one at a time and never below what the reconcile
   works towards, and only after this same reconcile saw that member drained and had its removal
   from the Splunk cluster acknowledged.
   */
  lemma {:induction false} ShrinkIsOrdered(s: State, events: seq<Event>, e: Event)
    requires s.op.Idle?
    requires Apply(Run(s, events), e).w.replicas < Run(s, events).w.replicas
    ensures MayShrink(Run(s, events), Apply(Run(s, events), e).w.replicas)
  {
    RunKeeps(s, events);
    InvariantShrinksInOrder(Run(s, events), e);
  }

  function Begins(events: seq<Event>): nat {
    if events == [] then 0
    else Begins(events[..|events| - 1]) + if events[|events| - 1].Begin? then 1 else 0
  }

  /** How many replicas the current reconcile may still take away. */
  function Allowance(op: Operator): nat {
    match op
    case Idle => 0
    case Reading(_, _, _) => 1
    case Running(_, _, pc, _, _) => if pc.AtRemoval? || pc.AtScaleDown? then 1 else 0
  }

  lemma CallSpendsAllowance(t: State, fate: Fate)
    requires Invariant(t)
    ensures ApplyCall(t, fate).w.replicas + Allowance(t.op) >= t.w.replicas + Allowance(ApplyCall(t, fate).op)
  {
  }

  lemma StepSpendsAllowance(t: State, e: Event)
    requires Invariant(t)
    ensures Apply(t, e).w.replicas + Allowance(t.op) + (if e.Begin? then 1 else 0)
         >= t.w.replicas + Allowance(Apply(t, e).op)
  {
    if e.MakeCall? {
      CallSpendsAllowance(t, e.fate);
    }
  }

  /** However a run goes, it loses at most one replica for each reconcile it begins. */
  lemma {:induction false} OneReplicaPerReconcile(s: State, events: seq<Event>)
    requires s.op.Idle?
    ensures Run(s, events).w.replicas + Begins(events) >= s.w.replicas + Allowance(Run(s, events).op)
    decreases |events|
  {
    if events != [] {
      var k := |events| - 1;
      OneReplicaPerReconcile(s, events[..k]);
      RunKeeps(s, events[..k]);
      StepSpendsAllowance(Run(s, events[..k]), events[k]);
    }
  }

  /** The user's wishes do not change. */
  predicate Undisturbed(events: seq<Event>) {
    forall e <- events :: !e.SetSpec? && !e.SetFactor?
  }

  predicate WorksTowards(t: State, goal: nat) {
    match t.op
    case Idle => true
    case Reading(v, _, _) => v.desired == goal
    case Running(v, _, _, _, _) => v.desired == goal
  }

  /** With the wishes fixed, scaling down stops at them: desired replicas and replication factor alike. */
  lemma {:induction false} NeverBelowWishes(s: State, events: seq<Event>)
    requires s.op.Idle? && Undisturbed(events)
    requires s.w.replicas >= Desired(s.cfg.kind, s.w.spec, s.w.factor)
    ensures var t := Run(s, events);
      && t.w.spec == s.w.spec && t.w.factor == s.w.factor
      && WorksTowards(t, Desired(s.cfg.kind, s.w.spec, s.w.factor))
      && t.w.replicas >= Desired(s.cfg.kind, s.w.spec, s.w.factor)
      && t.w.replicas >= s.w.spec
      && (s.cfg.kind.Indexer? ==> t.w.replicas >= s.w.factor && t.w.replicas >= 1)
      && (s.cfg.kind.SearchHead? ==> t.w.replicas >= 3)
    decreases |events|
  {
    DesiredCovers(s.cfg.kind, s.w.spec, s.w.factor);
    if events != [] {
      var k := |events| - 1;
      var t := Run(s, events[..k]);
      NeverBelowWishes(s, events[..k]);
      RunKeeps(s, events[..k]);
      KeepsWishes(t, events[k]);
      if Apply(t, events[k]).w.replicas < t.w.replicas {
        InvariantShrinksInOrder(t, events[k]);
      }
    }
  }

  lemma KeepsWishes(t: State, e: Event)
    requires !e.SetSpec? && !e.SetFactor? && WorksTowards(t, Desired(t.cfg.kind, t.w.spec, t.w.factor))
    ensures var u := Apply(t, e);
      && u.cfg == t.cfg && u.w.spec == t.w.spec && u.w.factor == t.w.factor
      && WorksTowards(u, Desired(t.cfg.kind, t.w.spec, t.w.factor))
  {
  }

  /** What an indexer reconcile works towards is at least the wanted replicas, the replication factor, and one. */
  /** A reconcile works towards the least count that covers the spec, the replication factor and the minimum. */
  lemma DesiredCovers(kind: Kind, spec: nat, factor: nat)
    ensures spec <= Desired(kind, spec, factor)
    ensures kind.Indexer? ==> factor <= Desired(kind, spec, factor) && 1 <= Desired(kind, spec, factor)
    ensures kind.SearchHead? ==> 3 <= Desired(kind, spec, factor)
    ensures Desired(kind, spec, factor)
      in (if kind.Plain? then {spec} else if kind.Indexer? then {1, spec, factor} else {3, spec})
  {
  }

  /** The operator's own step `e` deletes pod `n` or scales it away. */
  predicate OperatorRemoves(t: State, e: Event, n: nat) {
    e.MakeCall? && ((n in t.w.pods && n !in Apply(t, e).w.pods) || Apply(t, e).w.replicas <= n < t.w.replicas)
  }

  lemma InvariantRemovesDrained(t: State, e: Event, n: nat)
    requires Invariant(t) && OperatorRemoves(t, e, n)
    ensures t.op.Running? && Drained(t.op.v, n)
  {
    if Apply(t, e).w.replicas < t.w.replicas {
      InvariantShrinksInOrder(t, e);
    }
  }

  /** A pod the operator deletes, or scales away, had been drained in the view of that same reconcile. */
  lemma {:induction false} RemovedPodsAreDrained(s: State, events: seq<Event>, e: Event, n: nat)
    requires s.op.Idle? && OperatorRemoves(Run(s, events), e, n)
    ensures Run(s, events).op.Running? && Drained(Run(s, events).op.v, n)
  {
    RunKeeps(s, events);
    InvariantRemovesDrained(Run(s, events), e, n);
  }

  /** A claim disappears only when it is the pending one, and its ordinal is just past the replicas. */
  lemma InvariantDeletesClaimsAbove(t: State, e: Event, claim: Claim)
    requires Invariant(t) && claim in t.w.claims && claim !in Apply(t, e).w.claims
    ensures t.op.Running? && t.op.pc.AtDeleteClaim? && t.op.pc.n == t.w.replicas
    ensures t.op.pc.i < |t.cfg.templates|
    ensures claim == ClaimOf(t.cfg.templates[t.op.pc.i], t.cfg.name, t.w.replicas)
  {
  }

  /** Whatever claim disappears in a run is that of some template for the ordinal just past the replicas. */
  lemma {:induction false} OnlySurplusClaimsGo(s: State, events: seq<Event>, e: Event, claim: Claim)
    requires s.op.Idle?
    requires claim in Run(s, events).w.claims && claim !in Apply(Run(s, events), e).w.claims
    ensures e.MakeCall?
    ensures exists template <- s.cfg.templates :: claim == ClaimOf(template, s.cfg.name, Run(s, events).w.replicas)
  {
    RunKeeps(s, events);
    var t := Run(s, events);
    InvariantDeletesClaimsAbove(t, e, claim);
    assert t.cfg.templates[t.op.pc.i] in s.cfg.templates;
  }

  /** No call ever deletes a claim of an ordinal below the replica count, whatever its template. */
  lemma {:induction false} LiveClaimsSurvive(s: State, events: seq<Event>, e: Event, template: Template, n: nat)
    requires s.op.Idle? && n < Run(s, events).w.replicas
    requires ClaimOf(template, s.cfg.name, n) in Run(s, events).w.claims
    ensures ClaimOf(template, s.cfg.name, n) in Apply(Run(s, events), e).w.claims
  {
    var t := Run(s, events);
    var claim := ClaimOf(template, s.cfg.name, n);
    RunKeeps(s, events);
    if claim !in Apply(t, e).w.claims {
      InvariantDeletesClaimsAbove(t, e, claim);
      ClaimNameInjective(template.name, t.cfg.templates[t.op.pc.i].name, s.cfg.name, n, t.w.replicas);
      assert false;
    }
  }

  /** The replica count never exceeds `n` along the way. */
  ghost predicate StaysAtOrBelow(s: State, events: seq<Event>, n: nat) {
    forall k :: 0 <= k <= |events| ==> Run(s, events[..k]).w.replicas <= n
  }

  /**
   A claim that a failed scale-down to `n` left behind is never deleted later, unless the StatefulSet
   first grows past `n` again, and so hands the old claim to the new pod.
   */
  lemma {:induction false} LeftoverClaimIsKept(s: State, events: seq<Event>, n: nat, template: Template)
    requires s.op.Idle? && StaysAtOrBelow(s, events, n)
    requires ClaimOf(template, s.cfg.name, n) in s.w.claims
    ensures ClaimOf(template, s.cfg.name, n) in Run(s, events).w.claims
    ensures var t := Run(s, events); t.op.Running? ==> !Clears(t.op.pc, n)
    decreases |events|
  {
    if events != [] {
      var k := |events| - 1;
      forall j | 0 <= j <= k ensures Run(s, events[..k][..j]).w.replicas <= n {
        assert events[..k][..j] == events[..j];
      }
      LeftoverClaimIsKept(s, events[..k], n, template);
      RunKeeps(s, events[..k]);
      RunKeeps(s, events);
      var t := Run(s, events[..k]);
      assert t.w.replicas <= n;
      StepNeverClears(t, events[k], n);
      if ClaimOf(template, s.cfg.name, n) !in Apply(t, events[k]).w.claims {
        InvariantDeletesClaimsAbove(t, events[k], ClaimOf(template, s.cfg.name, n));
        ClaimNameInjective(template.name, t.cfg.templates[t.op.pc.i].name, s.cfg.name, n, t.w.replicas);
        assert false;
      }
    }
  }

  /** The machine is deleting the claims of ordinal `n`. */
  predicate Clears(pc: Pc, n: nat) {
    (pc.AtGetClaim? || pc.AtDeleteClaim?) && pc.n == n
  }

  lemma StepNeverClears(t: State, e: Event, n: nat)
    requires Invariant(t) && t.w.replicas <= n && (t.op.Running? ==> !Clears(t.op.pc, n))
    ensures var u := Apply(t, e); u.op.Running? ==> !Clears(u.op.pc, n)
  {
  }
}
