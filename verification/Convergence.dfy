/**
 A reconcile short of Ready makes the measure smaller or waits for a member, and the environment never
 makes it larger; and so Ready is reached.
 */
module Convergence {
  import opened Wrappers
  import opened StatefulSets
  import opened Operation
  import opened Progress
  import opened Undisturbed

  lemma {:induction false} OutdatedDrops(w: World, u: World, n: nat, k: nat)
    requires forall m: nat :: m < n && IsOutdated(u, m) ==> IsOutdated(w, m)
    ensures CountOutdated(u, n) <= CountOutdated(w, n)
    ensures k < n && IsOutdated(w, k) && !IsOutdated(u, k) ==> CountOutdated(u, n) < CountOutdated(w, n)
  {
    if n > 0 {
      OutdatedDrops(w, u, n - 1, k);
    }
  }

  /** Member `m` is no farther from, or nearer to, where it should be. */
  predicate NoFarther(cfg: Config, w: World, u: World, m: nat) {
    || StageOf(cfg, u, m) < StageOf(cfg, w, m)
    || (StageOf(cfg, u, m) == StageOf(cfg, w, m) && BacklogOf(cfg, u, m) <= BacklogOf(cfg, w, m))
  }

  predicate Nearer(cfg: Config, w: World, u: World, m: nat) {
    || StageOf(cfg, u, m) < StageOf(cfg, w, m)
    || (StageOf(cfg, u, m) == StageOf(cfg, w, m) && BacklogOf(cfg, u, m) < BacklogOf(cfg, w, m))
  }

  predicate SumsLess(cfg: Config, w: World, u: World, n: nat) {
    || SumStages(cfg, u, n) < SumStages(cfg, w, n)
    || (SumStages(cfg, u, n) == SumStages(cfg, w, n) && SumBacklog(cfg, u, n) < SumBacklog(cfg, w, n))
  }

  lemma {:induction false} SumsDrop(cfg: Config, w: World, u: World, n: nat, k: nat)
    requires forall m: nat :: m < n ==> NoFarther(cfg, w, u, m)
    ensures SumsLess(cfg, w, u, n)
      || (SumStages(cfg, u, n) == SumStages(cfg, w, n) && SumBacklog(cfg, u, n) == SumBacklog(cfg, w, n))
    ensures k < n && Nearer(cfg, w, u, k) ==> SumsLess(cfg, w, u, n)
  {
    if n > 0 {
      SumsDrop(cfg, w, u, n - 1, k);
      assert NoFarther(cfg, w, u, n - 1);
    }
  }

  /** A member that has been asked nothing, and must move. */
  predicate InTransition(kind: Kind, leaving: bool, m: Member) {
    match kind
    case Plain => false
    case Indexer => if leaving then m.status != "Up" && !IsDown(m.status) else m.status != "Up"
    case SearchHead =>
      if m.status == "ManualDetention" then leaving && Searches(m) > 0 else m.status != "Up"
  }

  lemma MoveIsNearer(kind: Kind, leaving: bool, a: Member, b: Member)
    requires Moves(kind, leaving, a, b)
    ensures Stage(kind, leaving, b) < Stage(kind, leaving, a)
      || (Stage(kind, leaving, b) == Stage(kind, leaving, a) && Backlog(kind, leaving, b) <= Backlog(kind, leaving, a))
    ensures InTransition(kind, leaving, a) ==>
      || Stage(kind, leaving, b) < Stage(kind, leaving, a)
      || (Stage(kind, leaving, b) == Stage(kind, leaving, a) && Backlog(kind, leaving, b) < Backlog(kind, leaving, a))
  {
  }

  /** Member `m` is in transition, so that a reconcile has to wait for it. */
  predicate Waits(cfg: Config, w: World, m: nat) {
    m < w.replicas && m in w.members && InTransition(cfg.kind, Leaving(cfg, w, m), w.members[m])
  }

  predicate NotMore(a: Measure, b: Measure) {
    Less(a, b) || a == b
  }

  lemma StepOfMember(cfg: Config, t: World, u: World, m: nat)
    requires Advances(cfg, t, u) && m < t.replicas && (IsOutdated(t, m) ==> IsOutdated(u, m))
    ensures IsOutdated(u, m) == IsOutdated(t, m) && NoFarther(cfg, t, u, m)
    ensures Waits(cfg, t, m) ==> Nearer(cfg, t, u, m) || (Waits(cfg, u, m) && !Moved(cfg, t, u, m))
  {
    if m in t.members && !cfg.kind.Plain? && !Stays(t.members[m], u.members[m]) {
      MoveIsNearer(cfg.kind, Leaving(cfg, t, m), t.members[m], u.members[m]);
    }
    if Waits(cfg, t, m) && Moved(cfg, t, u, m) {
      MoveIsNearer(cfg.kind, Leaving(cfg, t, m), t.members[m], u.members[m]);
    }
  }

  /** The environment never makes the measure larger, and a move of member `m` that was due makes it smaller. */
  lemma EnvironmentKeeps(cfg: Config, t: World, u: World, m: nat)
    requires Advances(cfg, t, u)
    ensures NotMore(MeasureOf(cfg, u), MeasureOf(cfg, t))
    ensures Waits(cfg, t, m) ==>
      Less(MeasureOf(cfg, u), MeasureOf(cfg, t)) || (Waits(cfg, u, m) && !Moved(cfg, t, u, m))
  {
    forall k: nat | k < t.replicas && IsOutdated(u, k) ensures IsOutdated(t, k) {
      assert u.pods[k].revision == if k in t.pods then t.pods[k].revision else t.revision;
    }
    if gone: nat :| gone < t.replicas && IsOutdated(t, gone) && !IsOutdated(u, gone) {
      OutdatedDrops(t, u, t.replicas, gone);
    } else {
      forall k: nat | k < t.replicas ensures NoFarther(cfg, t, u, k) && IsOutdated(u, k) == IsOutdated(t, k) {
        StepOfMember(cfg, t, u, k);
      }
      OutdatedDrops(t, u, t.replicas, 0);
      OutdatedDrops(u, t, t.replicas, 0);
      SumsDrop(cfg, t, u, t.replicas, m);
      if Waits(cfg, t, m) {
        StepOfMember(cfg, t, u, m);
      }
    }
  }

  /** The reconcile left pods and target alone, and of the members all but `m`. */
  ghost predicate OnlyMember(cfg: Config, w: World, t: World, m: nat) {
    && t.pods == w.pods && SameTarget(w, t)
    && (forall k :: k in w.members <==> k in t.members)
    && (forall k <- w.members :: k != m ==> t.members[k] == w.members[k])
  }

  predicate Alike(w: World, t: World) {
    SameTarget(w, t) && t.pods == w.pods && t.members == w.members
  }

  lemma AlikeMeasure(cfg: Config, w: World, t: World)
    requires Alike(w, t)
    ensures MeasureOf(cfg, t) == MeasureOf(cfg, w)
  {
    OutdatedDrops(w, t, w.replicas, 0);
    OutdatedDrops(t, w, w.replicas, 0);
    SumsDrop(cfg, w, t, w.replicas, 0);
    SumsDrop(cfg, t, w, w.replicas, 0);
  }

  /**
   What a reconcile achieves: the measure is smaller, or all is as before, and short of Ready a member is
   waited for.
   */
  ghost predicate ActsOrWaits(cfg: Config, w: World, t: World, ready: bool) {
    Less(MeasureOf(cfg, t), MeasureOf(cfg, w)) || (Alike(w, t) && (ready || exists m :: Waits(cfg, w, m)))
  }

  lemma MemberActs(cfg: Config, w: World, t: World, m: nat)
    requires Calm(cfg, w) && !cfg.kind.Plain? && m < w.replicas && OnlyMember(cfg, w, t, m)
    requires if t.members[m] == w.members[m] then InTransition(cfg.kind, Leaving(cfg, w, m), w.members[m])
             else Stage(cfg.kind, Leaving(cfg, w, m), t.members[m]) < Stage(cfg.kind, Leaving(cfg, w, m), w.members[m])
    ensures ActsOrWaits(cfg, w, t, false)
  {
    if t.members[m] == w.members[m] {
      assert t.members == w.members;
      assert Waits(cfg, w, m);
    } else {
      forall k: nat | k < w.replicas ensures NoFarther(cfg, w, t, k) && (k == m ==> Nearer(cfg, w, t, k)) {
        assert Leaving(cfg, t, k) == Leaving(cfg, w, k);
      }
      SumsDrop(cfg, w, t, w.replicas, m);
      OutdatedDrops(w, t, w.replicas, m);
      OutdatedDrops(t, w, w.replicas, m);
    }
  }

  /** Deleting an outdated pod. */
  lemma PodActs(cfg: Config, w: World, m: nat)
    requires m < w.replicas && IsOutdated(w, m)
    ensures Less(MeasureOf(cfg, w.(pods := w.pods - {m})), MeasureOf(cfg, w))
  {
    OutdatedDrops(w, w.(pods := w.pods - {m}), w.replicas, m);
  }

  /** A request takes effect on member `m` alone. */
  lemma RequestEffect(cfg: Config, w: World, call: Call, m: nat)
    requires m in w.members && (call.Decommission? || call.SetDetention?) && call.n == m
    ensures var effect := Effect(w, call, None);
      && effect.Some? && OnlyMember(cfg, w, effect.value, m)
      && effect.value.members[m] == w.members[m].(status := if call.Decommission? then "Decommissioning"
                                                            else if call.detained then "ManualDetention" else "Up")
  {
  }

  /** What the call for pod `m` does to its member, or that the member is in transition. */
  lemma VisitActs(s: State, m: nat)
    requires Current(s) && m < s.w.replicas && Goal(s.cfg, s.w) == s.w.replicas && !s.cfg.kind.Plain?
    requires !InOrder(s.op.v, s.w, m) && !Visit(s.op.v, m, s.w.pods[m]).AtDelete?
    ensures var t, leaving, a := AfterVisit(s.op.v, s.w, m), Leaving(s.cfg, s.w, m), s.w.members[m];
      && OnlyMember(s.cfg, s.w, t, m)
      && (if t.members[m] == a then InTransition(s.cfg.kind, leaving, a)
          else Stage(s.cfg.kind, leaving, t.members[m]) < Stage(s.cfg.kind, leaving, a))
  {
    var pc := Visit(s.op.v, m, s.w.pods[m]);
    var read := s.op.v.members[m];
    assert read == s.w.members[m].(name := read.name, id := read.id);
    VisitNotInOrder(s.op.v, s.w, m);
    if !pc.Done? {
      RequestEffect(s.cfg, s.w, pc.request, m);
    }
  }

  lemma VisitDeletes(s: State, m: nat)
    requires Current(s) && m < s.w.replicas && Visit(s.op.v, m, s.w.pods[m]).AtDelete?
    ensures IsOutdated(s.w, m) && AfterVisit(s.op.v, s.w, m) == s.w.(pods := s.w.pods - {m})
  {
  }

  /** A pod not in order on a no-op manager's StatefulSet is outdated, and is deleted at once. */
  lemma PlainDeletes(s: State, m: nat)
    requires Current(s) && m < s.w.replicas && s.cfg.kind.Plain? && !InOrder(s.op.v, s.w, m)
    ensures Visit(s.op.v, m, s.w.pods[m]).AtDelete?
  {
  }

  lemma ScanActs(s: State, m: nat)
    requires Current(s) && m < s.w.replicas && Goal(s.cfg, s.w) == s.w.replicas && !InOrder(s.op.v, s.w, m)
    ensures ActsOrWaits(s.cfg, s.w, AfterVisit(s.op.v, s.w, m), false)
  {
    if Visit(s.op.v, m, s.w.pods[m]).AtDelete? {
      VisitDeletes(s, m);
      PodActs(s.cfg, s.w, m);
    } else if s.cfg.kind.Plain? {
      PlainDeletes(s, m);
    } else {
      VisitActs(s, m);
      MemberActs(s.cfg, s.w, AfterVisit(s.op.v, s.w, m), m);
    }
  }

  lemma QuarantineActs(s: State, n: nat)
    requires Current(s) && n + 1 == s.w.replicas && Goal(s.cfg, s.w) < s.w.replicas
    requires QuarantineForScaleDown(s.op.v.kind, s.op.v.members, n) != Settled(true)
    ensures !s.cfg.kind.Plain?
    ensures var t, a := AfterQuarantine(s.op.v, s.w, n), s.w.members[n];
      && OnlyMember(s.cfg, s.w, t, n)
      && (if t.members[n] == a then InTransition(s.cfg.kind, true, a)
          else Stage(s.cfg.kind, true, t.members[n]) < Stage(s.cfg.kind, true, a))
  {
    var answer := QuarantineForScaleDown(s.op.v.kind, s.op.v.members, n);
    var read := s.op.v.members[n];
    assert read == s.w.members[n].(name := read.name, id := read.id);
    if answer.Request? {
      RequestEffect(s.cfg, s.w, answer.call, n);
    }
  }

  lemma ScaleDownActs(s: State)
    requires Current(s) && s.op.pc == Start(s.op.v) && Goal(s.cfg, s.w) < s.w.replicas
    ensures ActsOrWaits(s.cfg, s.w, Finish(s).w, false)
  {
    var n: nat := s.w.replicas - 1;
    ScaleDownEnds(s);
    if QuarantineForScaleDown(s.op.v.kind, s.op.v.members, n) != Settled(true) {
      QuarantineActs(s, n);
      MemberActs(s.cfg, s.w, AfterQuarantine(s.op.v, s.w, n), n);
    }
  }

  /** An undisturbed reconcile of a calm cluster gets on with its work, waits for a member, or reports Ready. */
  lemma ReconcileActs(s: State)
    requires s.op.Idle? && Calm(s.cfg, s.w)
    ensures ActsOrWaits(s.cfg, s.w, Reconcile(s).w, ReportsReady(Reconcile(s)))
  {
    ReadsEnd(s);
    var t := ReadAll(ApplyBegin(s, Begin(s.w.replicas, s.w.replicas, true, None)));
    if Goal(s.cfg, s.w) > s.w.replicas {
      ScaleUpEnds(t);
    } else if Goal(s.cfg, s.w) < s.w.replicas {
      ScaleDownActs(t);
      ScaleDownEnds(t);
    } else {
      ScanEnds(t, s.w.replicas);
      var m := Focus(t.op.v, t.w, s.w.replicas);
      if m.Some? {
        ScanActs(t, m.value);
      }
    }
  }

  lemma AnswerAdvances(cfg: Config, t: World, u: World, m: nat)
    requires Answers(cfg, t, u)
    ensures Advances(cfg, t, u) && (m < t.replicas && !cfg.kind.Plain? ==> Moved(cfg, t, u, m))
  {
    if !cfg.kind.Plain? {
      forall n: nat | n < t.replicas && n in t.members ensures n in u.members && Moved(cfg, t, u, n) {
      }
    }
  }

  /** No round is wasted: short of Ready, it makes the measure smaller. */
  lemma RoundShrinks(s: State, u: World)
    requires s.op.Idle? && Calm(s.cfg, s.w) && !ReportsReady(Reconcile(s))
    requires Answers(s.cfg, Reconcile(s).w, u)
    ensures Less(MeasureOf(s.cfg, u), MeasureOf(s.cfg, s.w))
  {
    var t := Reconcile(s).w;
    ReconcileActs(s);
    if Less(MeasureOf(s.cfg, t), MeasureOf(s.cfg, s.w)) {
      AnswerAdvances(s.cfg, t, u, 0);
      EnvironmentKeeps(s.cfg, t, u, 0);
    } else {
      var m :| Waits(s.cfg, s.w, m);
      AnswerAdvances(s.cfg, t, u, m);
      AlikeMeasure(s.cfg, s.w, t);
      EnvironmentKeeps(s.cfg, t, u, m);
    }
  }

  lemma {:induction false} NothingLeft(s: State, n: nat)
    requires Current(s) && Goal(s.cfg, s.w) == s.w.replicas && n <= s.w.replicas
    ensures Focus(s.op.v, s.w, n) == None <==>
      CountOutdated(s.w, n) == 0 && SumStages(s.cfg, s.w, n) == 0 && SumBacklog(s.cfg, s.w, n) == 0
  {
    if n > 0 {
      NothingLeft(s, n - 1);
      InOrderMeans(s, n - 1);
    }
  }

  lemma InOrderMeans(s: State, m: nat)
    requires Current(s) && Goal(s.cfg, s.w) == s.w.replicas && m < s.w.replicas
    ensures InOrder(s.op.v, s.w, m) <==>
      !IsOutdated(s.w, m) && StageOf(s.cfg, s.w, m) == 0 && BacklogOf(s.cfg, s.w, m) == 0
  {
  }

  /** An undisturbed reconcile reports Ready exactly when there is nothing left to do. */
  lemma ReadyIffDone(s: State)
    requires s.op.Idle? && Calm(s.cfg, s.w)
    ensures ReportsReady(Reconcile(s)) <==> MeasureOf(s.cfg, s.w) == Measure(0, 0, 0, 0)
  {
    ReadsEnd(s);
    var t := ReadAll(ApplyBegin(s, Begin(s.w.replicas, s.w.replicas, true, None)));
    if Goal(s.cfg, s.w) > s.w.replicas {
      ScaleUpEnds(t);
    } else if Goal(s.cfg, s.w) < s.w.replicas {
      ScaleDownEnds(t);
    } else {
      ScanEnds(t, s.w.replicas);
      NothingLeft(t, s.w.replicas);
    }
  }

  /** A round takes `s` to a calm cluster `u`. */
  ghost predicate Round(s: State, u: World) {
    Answers(s.cfg, Reconcile(s).w, u)
  }

  function NextMember(kind: Kind, leaving: bool, m: Member): Member {
    if kind.SearchHead? && m.status == "ManualDetention" then m.(historicalSearches := 0, realtimeSearches := 0)
    else if kind.Indexer? && leaving && m.status != "Up" then m.(status := "Down")
    else m.(status := "Up")
  }

  /** The environment can always answer. */
  lemma AnswerExists(cfg: Config, t: World)
    requires t.revision != "" && (!cfg.kind.Plain? ==> t.replicas > 0)
    ensures exists u :: Answers(cfg, t, u)
  {
    var u := t.(
      pods := map n: nat | n < t.replicas ::
        Pod(0, 0, true, [true], if n in t.pods then t.pods[n].revision else t.revision),
      members := map n: nat | n < t.replicas ::
        if n in t.members then NextMember(cfg.kind, Leaving(cfg, t, n), t.members[n]) else Member("", "", "Up", 0, 0));
    assert Answers(cfg, t, u);
  }

  lemma VisitKeepsTarget(v: View, w: World, m: nat)
    requires m in w.pods && (v.kind.Plain? || m < |v.members|) && PodReady(w.pods[m]) && !InOrder(v, w, m)
    ensures SameTarget(w, AfterVisit(v, w, m))
  {
    VisitNotInOrder(v, w, m);
  }

  lemma {:induction false} ScaleDownKeepsRevision(s: State)
    requires Current(s) && s.op.pc == Start(s.op.v) && Goal(s.cfg, s.w) < s.w.replicas
    ensures Finish(s).w.revision == s.w.revision && Finish(s).w.replicas + 1 >= s.w.replicas
  {
    ScaleDownEnds(s);
    if QuarantineForScaleDown(s.op.v.kind, s.op.v.members, s.w.replicas - 1) != Settled(true) {
      QuarantineActs(s, s.w.replicas - 1);
    }
  }

  lemma ScanKeepsTarget(s: State)
    requires Current(s) && s.op.pc == Below(s.op.v, s.w.replicas)
    ensures SameTarget(s.w, Finish(s).w)
  {
    ScanEnds(s, s.w.replicas);
    var m := Focus(s.op.v, s.w, s.w.replicas);
    if m.Some? {
      VisitKeepsTarget(s.op.v, s.w, m.value);
    }
  }

  lemma TargetIsKept(s: State)
    requires s.op.Idle? && Calm(s.cfg, s.w)
    ensures Reconcile(s).w.revision == s.w.revision
    ensures !s.cfg.kind.Plain? ==> Reconcile(s).w.replicas > 0
  {
    ReadsEnd(s);
    var t := ReadAll(ApplyBegin(s, Begin(s.w.replicas, s.w.replicas, true, None)));
    if Goal(s.cfg, s.w) > s.w.replicas {
      ScaleUpEnds(t);
    } else if Goal(s.cfg, s.w) < s.w.replicas {
      ScaleDownKeepsRevision(t);
    } else {
      ScanKeepsTarget(t);
    }
  }

  /** Every reconcile of a calm cluster has a round to follow. */
  lemma RoundExists(s: State)
    requires s.op.Idle? && Calm(s.cfg, s.w)
    ensures exists u :: Round(s, u)
  {
    TargetIsKept(s);
    AnswerExists(s.cfg, Reconcile(s).w);
    var u :| Answers(s.cfg, Reconcile(s).w, u);
    assert Round(s, u);
  }

  /** One round after the other, with the wishes and the revision left alone. */
  ghost predicate RoundsGoOn(s: State, worlds: nat -> World) {
    s.op.Idle? && Calm(s.cfg, worlds(0)) && forall k: nat :: Round(s.(w := worlds(k)), worlds(k + 1))
  }

  /** Some answer to the reconcile of a calm cluster. */
  ghost function NextWorld(s: State): (u: World)
    requires s.op.Idle? && Calm(s.cfg, s.w)
    ensures Round(s, u)
  {
    RoundExists(s);
    var u :| Round(s, u);
    u
  }

  ghost function WorldAt(s: State, k: nat): (w: World)
    requires s.op.Idle? && Calm(s.cfg, s.w)
    ensures Calm(s.cfg, w)
  {
    if k == 0 then s.w else NextWorld(s.(w := WorldAt(s, k - 1)))
  }

  /** From any calm cluster rounds go on for ever. */
  lemma RoundsExist(s: State) returns (worlds: nat -> World)
    requires s.op.Idle? && Calm(s.cfg, s.w)
    ensures worlds(0) == s.w && RoundsGoOn(s, worlds)
  {
    worlds := (k: nat) => WorldAt(s, k);
    forall k: nat ensures Round(s.(w := worlds(k)), worlds(k + 1)) {
      var u := NextWorld(s.(w := WorldAt(s, k)));
      assert WorldAt(s, k + 1) == u;
    }
  }

  lemma {:induction false} RoundsAreCalm(s: State, worlds: nat -> World, k: nat)
    requires RoundsGoOn(s, worlds)
    ensures Calm(s.cfg, worlds(k))
  {
    if k > 0 {
      assert Round(s.(w := worlds(k - 1)), worlds(k - 1 + 1));
    }
  }

  lemma {:induction false} LaggingReads(s: State)
    requires s.op.Reading? && s.op.v.readyReplicas != s.op.v.replicas
    requires s.op.v.readyReplicas <= s.op.count && |s.op.v.members| < s.op.count
    ensures var t := ReadAll(s); t.w == s.w && t.op.Running? && t.op.pc.Done? && t.op.pc.phase != Ready
    decreases s.op.count - |s.op.v.members|
  {
    if |s.op.v.members| + 1 < s.op.count {
      LaggingReads(ApplyRead(s, true));
    }
  }

  /** A reconcile that finds the ready count lagging leaves the cluster alone. */
  lemma LaggingIsIdle(s: State, ready: nat, seen: nat)
    requires s.op.Idle? && ready != s.w.replicas
    ensures ReconcileSeeing(s, ready, seen).w == s.w && !ReportsReady(ReconcileSeeing(s, ready, seen))
  {
    var t := ApplyBegin(s, Begin(ready, seen, true, None));
    if t.op.Reading? {
      LaggingReads(t);
    }
  }

  /** A run of undisturbed reconciles: the cluster each one finds, and the counts of ready and existing replicas. */
  datatype Timeline = Timeline(worlds: nat -> World, ready: nat -> nat, seen: nat -> nat)
  {
    function After(s: State, k: nat): World {
      ReconcileSeeing(s.(w := worlds(k)), ready(k), seen(k)).w
    }

    /** Reconcile `k` finds the counts in agreement. */
    predicate Agrees(k: nat) {
      ready(k) == worlds(k).replicas
    }

    /** After reconcile `k`, the environment does any part of its work before the next one. */
    ghost predicate StepsOn(s: State, k: nat) {
      && (Agrees(k) ==> seen(k) == ready(k) && Calm(s.cfg, worlds(k)))
      && Advances(s.cfg, After(s, k), worlds(k + 1))
    }

    ghost predicate StopsWaiting(s: State, m: nat, j: nat) {
      !Waits(s.cfg, worlds(j), m) || Moved(s.cfg, After(s, j), worlds(j + 1), m)
    }

    ghost predicate AgreesFrom(k: nat) {
      exists j: nat :: k <= j && Agrees(j)
    }

    /** Time and again the counts agree, and no member in transition stays put for ever. */
    ghost predicate Fair(s: State) {
      && (forall k: nat :: AgreesFrom(k))
      && (forall k: nat, m: nat :: Waits(s.cfg, worlds(k), m) ==> exists j: nat :: k <= j && StopsWaiting(s, m, j))
    }

    ghost predicate GoesOn(s: State) {
      s.op.Idle? && (forall k: nat :: StepsOn(s, k)) && Fair(s)
    }

    function At(s: State, k: nat): Measure {
      MeasureOf(s.cfg, worlds(k))
    }
  }

  /** One step never makes the measure larger, and a member waited for still is, or it has become smaller. */
  lemma StepKeeps(s: State, line: Timeline, k: nat, m: nat)
    requires s.op.Idle? && line.StepsOn(s, k)
    ensures NotMore(line.At(s, k + 1), line.At(s, k))
    ensures Waits(s.cfg, line.worlds(k), m) ==>
      Less(line.At(s, k + 1), line.At(s, k)) || (Waits(s.cfg, line.worlds(k + 1), m) && !line.StopsWaiting(s, m, k))
  {
    var here := s.(w := line.worlds(k));
    if line.Agrees(k) {
      ReconcileActs(here);
    } else {
      LaggingIsIdle(here, line.ready(k), line.seen(k));
    }
    EnvironmentKeeps(s.cfg, line.After(s, k), line.worlds(k + 1), m);
    if !Less(MeasureOf(s.cfg, line.After(s, k)), line.At(s, k)) {
      AlikeMeasure(s.cfg, line.worlds(k), line.After(s, k));
    }
  }

  lemma {:induction false} NeverMore(s: State, line: Timeline, k: nat, j: nat)
    requires line.GoesOn(s) && k <= j
    ensures NotMore(line.At(s, j), line.At(s, k))
    decreases j - k
  {
    if k < j {
      assert line.StepsOn(s, k);
      StepKeeps(s, line, k, 0);
      NeverMore(s, line, k + 1, j);
    }
  }

  /** The wait for a member ends in a smaller measure. */
  lemma {:induction false} WaitEnds(s: State, line: Timeline, k: nat, m: nat, j: nat) returns (i: nat)
    requires line.GoesOn(s) && Waits(s.cfg, line.worlds(k), m) && k <= j && line.StopsWaiting(s, m, j)
    ensures k < i && Less(line.At(s, i), line.At(s, k))
    decreases j - k
  {
    assert line.StepsOn(s, k);
    StepKeeps(s, line, k, m);
    if Less(line.At(s, k + 1), line.At(s, k)) {
      i := k + 1;
    } else {
      i := WaitEnds(s, line, k + 1, m, j);
    }
  }

  /** Short of Ready, the measure becomes smaller sooner or later. */
  lemma Shrinks(s: State, line: Timeline, k: nat) returns (i: nat)
    requires line.GoesOn(s) && line.Agrees(k) && !ReportsReady(Reconcile(s.(w := line.worlds(k))))
    ensures k < i && Less(line.At(s, i), line.At(s, k))
  {
    assert line.StepsOn(s, k);
    ReconcileActs(s.(w := line.worlds(k)));
    if Less(MeasureOf(s.cfg, line.After(s, k)), line.At(s, k)) {
      EnvironmentKeeps(s.cfg, line.After(s, k), line.worlds(k + 1), 0);
      i := k + 1;
    } else {
      var m :| Waits(s.cfg, line.worlds(k), m);
      var j: nat :| k <= j && line.StopsWaiting(s, m, j);
      i := WaitEnds(s, line, k, m, j);
    }
  }

  /** From any moment on, a reconcile comes that finds the counts in agreement and reports Ready. */
  lemma {:induction false} ReachesReady(s: State, line: Timeline, k: nat) returns (r: nat)
    requires line.GoesOn(s)
    ensures r >= k && line.Agrees(r) && ReportsReady(Reconcile(s.(w := line.worlds(r))))
    decreases line.At(s, k).distance, line.At(s, k).outdated, line.At(s, k).stages, line.At(s, k).backlog
  {
    assert line.AgreesFrom(k);
    var j: nat :| k <= j && line.Agrees(j);
    NeverMore(s, line, k, j);
    if ReportsReady(Reconcile(s.(w := line.worlds(j)))) {
      r := j;
    } else {
      var i := Shrinks(s, line, j);
      r := ReachesReady(s, line, i);
    }
  }

  /** A full answer leaves no member in transition where it was, unless it was scaled away. */
  lemma AnswerEndsWait(line: Timeline, s: State, k: nat, m: nat)
    requires s.op.Idle? && line.Agrees(k) && line.seen(k) == line.ready(k)
    requires Round(s.(w := line.worlds(k)), line.worlds(k + 1))
    ensures line.StopsWaiting(s, m, k) || line.StopsWaiting(s, m, k + 1)
  {
    AnswerAdvances(s.cfg, line.After(s, k), line.worlds(k + 1), m);
  }

  /** Rounds, each answered in full, are such a run. */
  lemma RoundsAreFair(s: State, worlds: nat -> World) returns (line: Timeline)
    requires RoundsGoOn(s, worlds)
    ensures line.worlds == worlds && line.GoesOn(s)
  {
    var counts := (k: nat) => worlds(k).replicas;
    line := Timeline(worlds, counts, counts);
    forall k: nat ensures line.StepsOn(s, k) && line.AgreesFrom(k) {
      RoundsAreCalm(s, worlds, k);
      assert Round(s.(w := worlds(k)), worlds(k + 1)) && line.Agrees(k);
      AnswerAdvances(s.cfg, line.After(s, k), worlds(k + 1), 0);
    }
    forall k: nat, m: nat | Waits(s.cfg, worlds(k), m) ensures exists j: nat :: k <= j && line.StopsWaiting(s, m, j) {
      assert Round(s.(w := worlds(k)), worlds(k + 1)) && line.Agrees(k);
      AnswerEndsWait(line, s, k, m);
    }
  }
}
