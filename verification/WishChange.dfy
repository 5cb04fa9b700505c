/**
 When the wished number of replicas may change. At a quiet moment it is safe to shrink exactly if no member
 is out because of the operator but the one of the highest ordinal, which goes first; and to grow exactly if
 no outdated pod is left over that would come to stand above one that is missing, or a member that is out.
 */
module WishChange {
  import opened Wrappers
  import opened StatefulSets
  import opened Operation
  import opened RollingUpdate
  import opened RevisionChange
  import opened Progress
  import opened Undisturbed

  /** A change of the wishes. */
  predicate IsWish(e: Event) {
    e.SetSpec? || e.SetFactor?
  }

  /** A reconcile begins, reads every member and is about to make its first call. */
  lemma ReconcileStarts(s: State) returns (events: seq<Event>)
    requires s.op.Idle? && (s.cfg.kind.Plain? || s.w.replicas > 0)
    ensures AllNeutral(events)
    ensures Run(s, events)
      == s.(h := s.h.(touched := {}), op := Running(ViewOf(s), Some(s.w.stsVersion), Start(ViewOf(s)), map[], []))
  {
    var begin := Begin(s.w.replicas, s.w.replicas, true, None);
    var readings := ReadsAreARun(ApplyBegin(s, begin));
    ReadsLeadToStart(s);
    RunCons(s, begin, readings);
    events := [begin] + readings;
    forall i | 0 <= i < |readings| ensures Neutral(readings[i]) {
      assert readings[i] in readings;
    }
    NeutralAppend([begin], readings);
  }

  lemma HighestIsAsked(s: State, n: nat)
    requires !s.cfg.kind.Plain? && n + 1 == s.w.replicas && Wanted(s) < s.w.replicas
    requires n in s.w.members && s.w.members[n].status == "Up"
    requires s.op.Running? && s.op.v == ViewOf(s) && s.op.pc == Start(s.op.v)
    ensures Apply(s, MakeCall(Acked)).h.offline == s.h.offline + {n}
  {
    assert s.op.v.members[n].status == "Up";
    var call := if s.cfg.kind.Indexer? then Decommission(n, true) else SetDetention(n, true);
    assert s.op.pc == AtQuarantine(n, call) && Issue(s.op.v, s.op.pc) == call;
  }

  /** If a lower member is out, a scale-down asks the highest one to go too. */
  lemma QuarantineAbove(s: State, x: nat) returns (events: seq<Event>)
    requires s.op.Idle? && !s.cfg.kind.Plain? && Wanted(s) < s.w.replicas
    requires x in s.h.offline && x + 1 < s.w.replicas
    ensures AllNeutral(events) && {x, s.w.replicas - 1} <= Run(s, events).h.offline
  {
    var n := s.w.replicas - 1;
    var report := Report(n, Member("", "", "Up", 0, 0));
    var t := Apply(s, report);
    var a := ReconcileStarts(t);
    var u := Run(t, a);
    assert ViewOf(u) == ViewOf(t);
    HighestIsAsked(u, n);
    RunCons(s, report, a);
    RunSnoc(s, [report] + a, MakeCall(Acked));
    events := [report] + a + [MakeCall(Acked)];
    NeutralAppend([report], a);
    NeutralAppend([report] + a, [MakeCall(Acked)]);
  }

  lemma GrowthCall(s: State)
    requires s.op.Running? && s.op.v == ViewOf(s) && s.op.pc == Start(s.op.v) && s.op.version == Some(s.w.stsVersion)
    requires s.w.replicas < Wanted(s)
    ensures var t := Apply(Apply(s, MakeCall(Acked)), Crash);
      && t.op.Idle? && t.cfg == s.cfg
      && t.w == s.w.(replicas := Wanted(s), stsVersion := s.w.stsVersion + 1)
      && t.h.orphaned == StillWanted(s.h.orphaned, Wanted(s)) && t.h.offline == StillWanted(s.h.offline, Wanted(s))
  {
    assert s.op.pc == AtScaleUp;
  }

  /** The StatefulSet grows to what is wanted. */
  lemma Grows(s: State) returns (events: seq<Event>)
    requires s.op.Idle? && (s.cfg.kind.Plain? || s.w.replicas > 0) && s.w.replicas < Wanted(s)
    ensures var t := Run(s, events);
      && AllNeutral(events) && t.op.Idle? && t.cfg == s.cfg
      && t.w == s.w.(replicas := Wanted(s), stsVersion := s.w.stsVersion + 1)
      && t.h.orphaned == StillWanted(s.h.orphaned, Wanted(s)) && t.h.offline == StillWanted(s.h.offline, Wanted(s))
  {
    var a := ReconcileStarts(s);
    var u := Run(s, a);
    assert ViewOf(u) == ViewOf(s);
    GrowthCall(u);
    RunSnoc(s, a, MakeCall(Acked));
    RunSnoc(s, a + [MakeCall(Acked)], Crash);
    events := a + [MakeCall(Acked)] + [Crash];
    NeutralAppend(a, [MakeCall(Acked)]);
    NeutralAppend(a + [MakeCall(Acked)], [Crash]);
  }

  /** An outdated pod left over above one that is missing, or a member that is out, is taken down as well. */
  lemma LeftoverGoes(s: State, x: nat, m: nat) returns (events: seq<Event>)
    requires s.op.Idle? && s.w.revision != "" && s.w.replicas < Wanted(s)
    requires m in s.w.pods && x < m < Wanted(s) && s.w.pods[m].revision != s.w.revision
    requires x in s.h.orphaned || (x in s.h.offline && !s.cfg.kind.Plain?)
    requires s.cfg.kind.Plain? || s.w.replicas > 0
    ensures AllNeutral(events) && ({x, m} <= Run(s, events).h.orphaned || {x, m} <= Run(s, events).h.offline)
  {
    var a := Grows(s);
    var t := Run(s, a);
    var b: seq<Event>;
    if x in s.h.orphaned {
      b := DeletionAbove(t, x, m);
    } else {
      b := RequestAbove(t, x, m);
    }
    RunAppend(s, a, b);
    NeutralAppend(a, b);
    events := a + b;
  }

  /** An unsafe wish lets the operator take down two. */
  lemma UnsafeWishTakesTwo(s: State, e: Event) returns (more: seq<Event>)
    requires Invariant(s) && Quiet(s) && IsWish(e) && !SafeWish(s, Wanted(Apply(s, e)))
    ensures var t := Apply(s, e);
      AllNeutral(more) && (|Run(t, more).h.orphaned| > 1 || |Run(t, more).h.offline| > 1)
  {
    var t := Apply(s, e);
    var d := Wanted(t);
    if d < s.w.replicas {
      var x :| x in s.h.offline && x + 1 != s.w.replicas;
      more := QuarantineAbove(t, x);
      TwoIsTooMany(Run(t, more).h.offline, x, s.w.replicas - 1);
    } else {
      var x, m := LeftoverAbove(s, d);
      more := LeftoverGoes(t, x, m);
      if {x, m} <= Run(t, more).h.orphaned {
        TwoIsTooMany(Run(t, more).h.orphaned, x, m);
      } else {
        TwoIsTooMany(Run(t, more).h.offline, x, m);
      }
    }
  }

  lemma LeftoverAbove(s: State, d: nat) returns (x: nat, m: nat)
    requires Invariant(s) && Quiet(s) && d >= s.w.replicas && !SafeWish(s, d)
    ensures d > s.w.replicas > 0 && x < m < d && m in s.w.pods && s.w.pods[m].revision != s.w.revision
    ensures x in s.h.orphaned || (x in s.h.offline && !s.cfg.kind.Plain?)
  {
    if x0 :| x0 in s.h.orphaned && !CarriedBetween(s.w, x0, s.w.revision, d) {
      x := x0;
    } else {
      x :| x in s.h.offline && !CarriedBetween(s.w, x, s.w.revision, d);
    }
    m :| m in s.w.pods && x < m < d && s.w.pods[m].revision != s.w.revision;
    assert UpdatedAbove(s, x);
  }

  lemma SafeWishStaysSafe(s: State, e: Event)
    requires Invariant(s) && Quiet(s) && IsWish(e) && SafeWish(s, Wanted(Apply(s, e)))
    ensures StaysSafe(Apply(s, e))
  {
    var t := Apply(s, e);
    StepKeeps(s, e);
    forall more: seq<Event> | FixedTarget(t, more)
      ensures |Run(t, more).h.orphaned| <= 1 && |Run(t, more).h.offline| <= 1
    {
      RunKeeps(t, more);
      AtMostOneHasSize(Run(t, more).h.orphaned);
      AtMostOneHasSize(Run(t, more).h.offline);
    }
  }

  /**
   After any run with the target fixed, or changed only where that is safe, and at a quiet moment: new
   wishes keep every further run, the scaling included, at one missing pod and one member out at most,
   exactly when SafeWish holds of the replicas they come to.
   */
  lemma {:induction false} WishIsSafeIff(s: State, events: seq<Event>, e: Event)
    requires Fresh(s) && AtTarget(s) && FixedTarget(s, events) && Quiet(Run(s, events)) && IsWish(e)
    ensures var t := Run(s, events); SafeWish(t, Wanted(Apply(t, e))) <==> StaysSafe(Apply(t, e))
  {
    var t := Run(s, events);
    RunKeeps(s, events);
    if SafeWish(t, Wanted(Apply(t, e))) {
      SafeWishStaysSafe(t, e);
    } else {
      var more := UnsafeWishTakesTwo(t, e);
      NeutralIsFixed(Apply(t, e), more);
    }
  }

  lemma AskedAndKilled(s: State)
    requires s.op.Running? && 0 in s.w.members && s.op.pc == AtPrepare(0, Decommission(0, false))
    ensures var t := Apply(Apply(s, MakeCall(Acked)), Crash);
      t.op.Idle? && t.cfg == s.cfg && SameTarget(s.w, t.w) && 0 in t.h.offline
  {
  }

  /** Two indexers, the higher one updated: a reconcile asks the lower one to go, and is killed. */
  lemma LowerMemberIsAsked(s: State) returns (events: seq<Event>)
    requires s.cfg.kind.Indexer? && s.op.Idle? && s.w.replicas == 2 && AtTarget(s) && InOrderFrom(s, 1)
    requires 0 in s.w.pods && PodReady(s.w.pods[0]) && s.w.pods[0].revision != s.w.revision
    requires 0 in s.w.members && s.w.members[0].status == "Up"
    ensures var t := Run(s, events);
      AllNeutral(events) && t.op.Idle? && t.cfg == s.cfg && SameTarget(s.w, t.w) && 0 in t.h.offline
  {
    var a := ScanBegins(s);
    var t := Run(s, a);
    var b := ScanReaches(t, 1, 0);
    var u := Run(t, b);
    var read := RevisionChange.PodIsRead(u, 0);
    AskedAndKilled(read);
    RunAppend(s, a, b);
    RunSnoc(s, a + b, MakeCall(Acked));
    RunSnoc(s, a + b + [MakeCall(Acked)], MakeCall(Acked));
    RunSnoc(s, a + b + [MakeCall(Acked)] + [MakeCall(Acked)], Crash);
    events := a + b + [MakeCall(Acked)] + [MakeCall(Acked)] + [Crash];
    NeutralAppend(a, b);
    NeutralAppend(a + b, [MakeCall(Acked)]);
    NeutralAppend(a + b + [MakeCall(Acked)], [MakeCall(Acked)]);
    NeutralAppend(a + b + [MakeCall(Acked)] + [MakeCall(Acked)], [Crash]);
  }

  /** Unsafe moments do occur: a scale-down wished for while the lower indexer is out takes both out. */
  lemma ScaleDownTakesTwo() returns (s: State, before: seq<Event>, wish: Event, after: seq<Event>)
    ensures Fresh(s) && AtTarget(s) && AllNeutral(before) && IsWish(wish) && AllNeutral(after)
    ensures |Run(s, before + [wish] + after).h.offline| > 1
  {
    var up := Member("", "", "Up", 0, 0);
    var pods := map[1 := Pod(1, 0, true, [true], "b"), 0 := Pod(0, 0, true, [true], "a")];
    var w := World(2, 0, "b", pods, 2, map[1 := up, 0 := up], {}, 2, 1);
    s := State(Config(Indexer, "sts", []), w, Idle, History({}, {}, {}));
    before := LowerMemberIsAsked(s);
    wish := SetSpec(1);
    var t := Apply(Run(s, before), wish);
    RunSnoc(s, before, wish);
    after := QuarantineAbove(t, 0);
    RunAppend(s, before + [wish], after);
    TwoIsTooMany(Run(s, before + [wish] + after).h.offline, 0, 1);
  }
}
