/**
 When the revision may change under a rolling update: between reconciles it is safe exactly when every
 pod above one that is missing, or a member that is out, because of the operator carries the new one.
 */
module RevisionChange {
  import opened Wrappers
  import opened StatefulSets
  import opened Operation
  import opened RollingUpdate
  import opened Progress
  import opened Undisturbed

  /** From here on, whatever happens with the target fixed, at most one pod is missing and one member out. */
  ghost predicate StaysSafe(s: State) {
    forall more: seq<Event> :: FixedTarget(s, more) ==>
      |Run(s, more).h.orphaned| <= 1 && |Run(s, more).h.offline| <= 1
  }

  /** Events that leave the wishes and the revision alone. */
  predicate Neutral(e: Event) {
    !e.SetSpec? && !e.SetFactor? && !e.SetRevision? && (e.Begin? ==> e.cached.None?)
  }

  predicate AllNeutral(events: seq<Event>) {
    forall i :: 0 <= i < |events| ==> Neutral(events[i])
  }

  lemma NeutralIsFixed(s: State, events: seq<Event>)
    requires AllNeutral(events)
    ensures FixedTarget(s, events)
  {
    forall k | 0 <= k < |events| ensures KeepsTarget(Run(s, events[..k]), events[k]) {
      assert Neutral(events[k]);
    }
  }

  /** The same target, and below `m` the same pods, members and history. */
  ghost predicate SameBelow(s: State, t: State, m: nat) {
    && t.op == s.op && t.cfg == s.cfg && SameTarget(s.w, t.w)
    && (forall k: nat :: k < m ==> (k in t.w.pods <==> k in s.w.pods) && (k in s.w.pods ==> t.w.pods[k] == s.w.pods[k]))
    && (forall k: nat :: k < m ==>
          (k in t.h.orphaned <==> k in s.h.orphaned) && (k in t.h.offline <==> k in s.h.offline))
  }

  /** From `from` up, every pod is there, ready and on the current revision, and its member Up. */
  ghost predicate InOrderFrom(s: State, from: nat) {
    forall k: nat :: from <= k < s.w.replicas ==>
      && k in s.w.pods && PodReady(s.w.pods[k]) && s.w.pods[k].revision == s.w.revision
      && k in s.w.members && s.w.members[k].status == "Up"
  }

  lemma PodRecreated(s: State, k: nat)
    requires k < s.w.replicas && InOrderFrom(s, k + 1)
    ensures var t := Apply(Apply(Apply(s, RemovePod(k)), CreatePod(k)), ChangePod(k, true, [true]));
      && SameBelow(s, t, k) && InOrderFrom(t, k + 1)
      && k in t.w.pods && PodReady(t.w.pods[k]) && t.w.pods[k].revision == t.w.revision
  {
  }

  lemma MemberReports(s: State, k: nat, member: Member)
    ensures var t := Apply(s, Report(k, member));
      && SameBelow(s, t, k) && t.w.pods == s.w.pods && k in t.w.members && t.w.members[k] == member
      && (InOrderFrom(s, k + 1) ==> InOrderFrom(t, k + 1))
  {
  }

  /** The environment recreates pod `k`, which becomes ready and its member Up. */
  lemma Recreate(s: State, k: nat) returns (events: seq<Event>)
    requires k < s.w.replicas && InOrderFrom(s, k + 1)
    ensures AllNeutral(events) && InOrderFrom(Run(s, events), k) && SameBelow(s, Run(s, events), k)
  {
    var member := Member("", "", "Up", 0, 0);
    events := [RemovePod(k), CreatePod(k), ChangePod(k, true, [true]), Report(k, member)];
    RunFour(s, RemovePod(k), CreatePod(k), ChangePod(k, true, [true]), Report(k, member));
    var ready := Apply(Apply(Apply(s, RemovePod(k)), CreatePod(k)), ChangePod(k, true, [true]));
    PodRecreated(s, k);
    MemberReports(ready, k, member);
    SameBelowJoins(s, ready, Run(s, events), k, k);
  }

  lemma RunFour(s: State, a: Event, b: Event, c: Event, d: Event)
    ensures Run(s, [a, b, c, d]) == Apply(Apply(Apply(Apply(s, a), b), c), d)
  {
    RunSnoc(s, [], a);
    RunSnoc(s, [a], b);
    RunSnoc(s, [a, b], c);
    RunSnoc(s, [a, b, c], d);
    assert [] + [a] == [a] && [a] + [b] == [a, b] && [a, b] + [c] == [a, b, c] && [a, b, c] + [d] == [a, b, c, d];
  }

  lemma SameBelowJoins(s: State, t: State, u: State, k: nat, m: nat)
    requires SameBelow(s, t, k) && SameBelow(t, u, m) && m <= k
    ensures SameBelow(s, u, m)
  {
  }

  lemma NeutralAppend(a: seq<Event>, b: seq<Event>)
    requires AllNeutral(a) && AllNeutral(b)
    ensures AllNeutral(a + b)
  {
  }

  /** The environment puts every pod from `m` up in order. */
  lemma {:induction false} RecreateFrom(s: State, m: nat) returns (events: seq<Event>)
    requires m <= s.w.replicas
    ensures AllNeutral(events) && InOrderFrom(Run(s, events), m) && SameBelow(s, Run(s, events), m)
    decreases s.w.replicas - m
  {
    if m == s.w.replicas {
      events := [];
    } else {
      var above := RecreateFrom(s, m + 1);
      var t := Run(s, above);
      var one := Recreate(t, m);
      events := above + one;
      RunAppend(s, above, one);
      NeutralAppend(above, one);
      SameBelowJoins(s, t, Run(t, one), m + 1, m);
    }
  }

  /** Pod `m` becomes ready, if it is not, and its member reports `status`. */
  lemma Expose(s: State, m: nat, member: Member) returns (events: seq<Event>)
    requires m in s.w.pods && m < s.w.replicas && InOrderFrom(s, m + 1)
    ensures var t := Run(s, events);
      && AllNeutral(events) && SameBelow(s, t, m) && InOrderFrom(t, m + 1)
      && m in t.w.pods && PodReady(t.w.pods[m]) && t.w.pods[m].revision == s.w.pods[m].revision
      && m in t.w.members && t.w.members[m] == member
  {
    events := [ChangePod(m, true, [true]), Report(m, member)];
    RunSnoc(s, [], events[0]);
    RunSnoc(s, [events[0]], events[1]);
    assert [] + [events[0]] == [events[0]] && [events[0]] + [events[1]] == events;
  }

  /** The reconcile sees the cluster as it is, and is about to read pod `k`. */
  ghost predicate Reading(s: State, k: nat) {
    && s.op.Running? && s.op.v == ViewOf(s) && s.op.pc == AtGetPod(k) && k < s.w.replicas
    && Goal(s.cfg, s.w) == s.w.replicas
  }

  predicate SameHistory(s: State, t: State) {
    t.cfg == s.cfg && t.w == s.w && t.h.orphaned == s.h.orphaned && t.h.offline == s.h.offline
  }

  /** A reconcile begins, reads every member and turns to the highest pod. */
  lemma ScanBegins(s: State) returns (events: seq<Event>)
    requires s.op.Idle? && s.w.replicas > 0 && Goal(s.cfg, s.w) == s.w.replicas
    ensures var t := Run(s, events);
      AllNeutral(events) && SameHistory(s, t) && Reading(t, s.w.replicas - 1)
  {
    var begin := Begin(s.w.replicas, s.w.replicas, true, None);
    var readings := ReadsAreARun(ApplyBegin(s, begin));
    ReadsLeadToStart(s);
    RunCons(s, begin, readings);
    events := [begin] + readings;
    forall i | 0 <= i < |readings| ensures Neutral(readings[i]) {
      assert readings[i] in readings;
    }
    NeutralAppend([begin], readings);
    assert ViewOf(Run(s, events)) == ViewOf(s);
  }

  lemma PodIsRead(s: State, k: nat) returns (t: State)
    requires Reading(s, k) && k in s.w.pods
    ensures t == Apply(s, MakeCall(Acked))
    ensures SameHistory(s, t) && t.op.Running? && t.op.v == s.op.v == ViewOf(t) && t.op.version == s.op.version
    ensures t.op.pc == Visit(s.op.v, k, s.w.pods[k])
  {
    CallEffect(s);
    t := Apply(s, MakeCall(Acked));
    assert ViewOf(t) == ViewOf(s);
  }

  lemma PodPasses(s: State, k: nat) returns (t: State)
    requires Reading(s, k) && InOrderFrom(s, k)
    ensures t == Apply(s, MakeCall(Acked)) && SameHistory(s, t) && (k > 0 ==> Reading(t, k - 1))
  {
    t := PodIsRead(s, k);
    VisitInOrder(s.op.v, s.w, k);
  }

  /** The scan goes down to pod `m` when every pod above is in order. */
  lemma {:induction false} ScanReaches(s: State, k: nat, m: nat) returns (events: seq<Event>)
    requires Reading(s, k) && m <= k && InOrderFrom(s, m + 1)
    ensures AllNeutral(events) && SameHistory(s, Run(s, events)) && Reading(Run(s, events), m)
    decreases k
  {
    if k == m {
      events := [];
    } else {
      var t := PodPasses(s, k);
      var rest := ScanReaches(t, k - 1, m);
      RunCons(s, MakeCall(Acked), rest);
      events := [MakeCall(Acked)] + rest;
    }
  }

  lemma TwoCalls(s: State)
    ensures Run(s, [MakeCall(Acked), MakeCall(Acked)]) == Apply(Apply(s, MakeCall(Acked)), MakeCall(Acked))
  {
    RunSnoc(s, [], MakeCall(Acked));
    RunSnoc(s, [MakeCall(Acked)], MakeCall(Acked));
    assert [] + [MakeCall(Acked)] == [MakeCall(Acked)];
    assert [MakeCall(Acked)] + [MakeCall(Acked)] == [MakeCall(Acked), MakeCall(Acked)];
  }

  lemma DeleteCall(s: State, m: nat)
    requires s.op.Running? && m in s.w.pods && s.op.pc == AtDelete(m, s.w.pods[m])
    ensures var t := ApplyCall(s, Acked);
      && t.h.orphaned == s.h.orphaned + {m} && t.cfg == s.cfg && t.w == s.w.(pods := s.w.pods - {m})
      && t.op.Running? && t.op.pc.Done?
  {
  }

  lemma AskCall(s: State, m: nat)
    requires s.op.Running? && s.op.pc.AtPrepare? && m in s.w.members
    requires s.op.pc.request == Decommission(m, false) || s.op.pc.request == SetDetention(m, true)
    ensures ApplyCall(s, Acked).h.offline == s.h.offline + {m}
  {
  }

  /** The member of an outdated pod has been drained: the pod is deleted. */
  lemma PodIsDeleted(s: State, m: nat)
    requires Reading(s, m) && m in s.w.pods && PodReady(s.w.pods[m]) && Outdated(s.op.v, s.w.pods[m])
    requires PrepareRecycle(s.op.v.kind, s.op.v.members, m) == Settled(true)
    ensures var t := Run(s, [MakeCall(Acked), MakeCall(Acked)]);
      && t.h.orphaned == s.h.orphaned + {m} && t.cfg == s.cfg && t.w == s.w.(pods := s.w.pods - {m})
      && t.op.Running? && t.op.pc.Done?
  {
    var t := PodIsRead(s, m);
    DeleteCall(t, m);
    TwoCalls(s);
  }

  /** The member of an outdated pod is Up: it is asked to go out of service. */
  lemma MemberIsAsked(s: State, m: nat)
    requires Reading(s, m) && m in s.w.pods && PodReady(s.w.pods[m]) && Outdated(s.op.v, s.w.pods[m])
    requires !s.cfg.kind.Plain? && m in s.w.members && s.w.members[m].status == "Up"
    ensures Run(s, [MakeCall(Acked), MakeCall(Acked)]).h.offline == s.h.offline + {m}
  {
    var t := PodIsRead(s, m);
    AskCall(t, m);
    TwoCalls(s);
  }

  /** Everything down to pod `m`, which is ready but outdated, has been passed by a scan of a new reconcile. */
  lemma ScanExposes(s: State, m: nat, member: Member) returns (events: seq<Event>)
    requires s.op.Idle? && AtTarget(s) && m in s.w.pods && m < s.w.replicas
    ensures var t := Run(s, events);
      && AllNeutral(events) && SameBelowOrdinal(s, t, m) && Reading(t, m)
      && m in t.w.pods && PodReady(t.w.pods[m]) && t.w.pods[m].revision == s.w.pods[m].revision
      && m in t.w.members && t.w.members[m] == member
  {
    var a := RecreateFrom(s, m + 1);
    var s1 := Run(s, a);
    var b := Expose(s1, m, member);
    var s2 := Run(s1, b);
    var c := ScanBegins(s2);
    var s3 := Run(s2, c);
    var d := ScanReaches(s3, s3.w.replicas - 1, m);
    RunAppend(s, a, b);
    RunAppend(s, a + b, c);
    RunAppend(s, a + b + c, d);
    NeutralAppend(a, b);
    NeutralAppend(a + b, c);
    NeutralAppend(a + b + c, d);
    events := a + b + c + d;
  }

  /** The target is the same, and what the history holds of ordinals below `m`. */
  ghost predicate SameBelowOrdinal(s: State, t: State, m: nat) {
    && t.cfg == s.cfg && SameTarget(s.w, t.w)
    && forall k: nat :: k < m ==> (k in t.h.orphaned <==> k in s.h.orphaned) && (k in t.h.offline <==> k in s.h.offline)
  }

  /** A member as it is when it has been drained. */
  function DrainedMember(kind: Kind): Member {
    Member("", "", if kind.Indexer? then "Down" else "ManualDetention", 0, 0)
  }

  /** A pod above a missing one is deleted too, unless it carries the revision. */
  lemma DeletionAbove(s: State, x: nat, m: nat) returns (events: seq<Event>)
    requires s.op.Idle? && AtTarget(s) && x in s.h.orphaned && m in s.w.pods && x < m < s.w.replicas
    requires s.w.pods[m].revision != s.w.revision
    ensures AllNeutral(events) && {x, m} <= Run(s, events).h.orphaned
  {
    var a := ScanExposes(s, m, DrainedMember(s.cfg.kind));
    var t := Run(s, a);
    PodIsDeleted(t, m);
    var calls := [MakeCall(Acked), MakeCall(Acked)];
    RunAppend(s, a, calls);
    NeutralAppend(a, calls);
    events := a + calls;
  }

  /** A member above one that is out is asked to go too, unless its pod carries the revision. */
  lemma RequestAbove(s: State, x: nat, m: nat) returns (events: seq<Event>)
    requires s.op.Idle? && AtTarget(s) && x in s.h.offline && m in s.w.pods && x < m < s.w.replicas
    requires s.w.pods[m].revision != s.w.revision && !s.cfg.kind.Plain?
    ensures AllNeutral(events) && {x, m} <= Run(s, events).h.offline
  {
    var a := ScanExposes(s, m, Member("", "", "Up", 0, 0));
    var t := Run(s, a);
    MemberIsAsked(t, m);
    var calls := [MakeCall(Acked), MakeCall(Acked)];
    RunAppend(s, a, calls);
    NeutralAppend(a, calls);
    events := a + calls;
  }

  lemma TwoIsTooMany(ordinals: set<nat>, x: nat, m: nat)
    requires {x, m} <= ordinals && x != m
    ensures |ordinals| > 1
  {
    assert ordinals == {x, m} + (ordinals - {x, m});
  }

  /** An unsafe change of revision lets the operator take down two. */
  lemma UnsafeChangeTakesTwo(s: State, r: string) returns (more: seq<Event>)
    requires Invariant(s) && Quiet(s) && r != "" && !SafeChange(s, r)
    ensures var t := Apply(s, SetRevision(r));
      AllNeutral(more) && (|Run(t, more).h.orphaned| > 1 || |Run(t, more).h.offline| > 1)
  {
    var t := Apply(s, SetRevision(r));
    if k :| k in s.h.orphaned && !CarriedAbove(s.w, k, r) {
      var m :| m in s.w.pods && k < m < s.w.replicas && s.w.pods[m].revision != r;
      more := DeletionAbove(t, k, m);
      TwoIsTooMany(Run(t, more).h.orphaned, k, m);
    } else {
      var k :| k in s.h.offline && !CarriedAbove(s.w, k, r);
      var m :| m in s.w.pods && k < m < s.w.replicas && s.w.pods[m].revision != r;
      more := RequestAbove(t, k, m);
      TwoIsTooMany(Run(t, more).h.offline, k, m);
    }
  }

  lemma SafeChangeStaysSafe(s: State, r: string)
    requires Invariant(s) && Quiet(s) && r != "" && SafeChange(s, r)
    ensures StaysSafe(Apply(s, SetRevision(r)))
  {
    var t := Apply(s, SetRevision(r));
    StepKeeps(s, SetRevision(r));
    forall more: seq<Event> | FixedTarget(t, more)
      ensures |Run(t, more).h.orphaned| <= 1 && |Run(t, more).h.offline| <= 1
    {
      RunKeeps(t, more);
      AtMostOneHasSize(Run(t, more).h.orphaned);
      AtMostOneHasSize(Run(t, more).h.offline);
    }
  }

  /**
   After any run with the target fixed, or changed only where that is safe, and at a quiet moment: a
   new revision keeps every further run at one missing pod and one member out at most, exactly when
   every pod above one that is missing, and every pod above a member that is out, because of the
   operator carries that revision already. For a revision that no pod carries this means that there is
   no such pod.
   */
  lemma {:induction false} ChangeIsSafeIff(s: State, events: seq<Event>, r: string)
    requires Fresh(s) && AtTarget(s) && FixedTarget(s, events)
    requires Quiet(Run(s, events)) && r != ""
    ensures SafeChange(Run(s, events), r) <==> StaysSafe(Apply(Run(s, events), SetRevision(r)))
  {
    var t := Run(s, events);
    RunKeeps(s, events);
    if SafeChange(t, r) {
      SafeChangeStaysSafe(t, r);
    } else {
      var more := UnsafeChangeTakesTwo(t, r);
      NeutralIsFixed(Apply(t, SetRevision(r)), more);
    }
  }

  /** No pod is left above `k`. */
  ghost predicate NoPodAbove(w: World, k: nat) {
    forall m <- w.pods :: !(k < m < w.replicas)
  }

  /** The same for a revision that no pod carries yet. */
  lemma {:induction false} NewRevisionIsSafeIff(s: State, events: seq<Event>, r: string)
    requires Fresh(s) && AtTarget(s) && FixedTarget(s, events)
    requires Quiet(Run(s, events)) && r != ""
    requires forall n <- Run(s, events).w.pods :: Run(s, events).w.pods[n].revision != r
    ensures var t := Run(s, events);
      StaysSafe(Apply(t, SetRevision(r))) <==>
        (forall k <- t.h.orphaned :: NoPodAbove(t.w, k)) && (forall k <- t.h.offline :: NoPodAbove(t.w, k))
  {
    var t := Run(s, events);
    ChangeIsSafeIff(s, events, r);
    forall k: nat ensures CarriedAbove(t.w, k, r) <==> NoPodAbove(t.w, k) {
    }
  }

  /** Two pods, the higher one updated: a reconcile deletes the lower one, and is over. */
  lemma LowerPodGoes(s: State) returns (events: seq<Event>)
    requires s.cfg.kind.Plain? && s.op.Idle? && s.w.replicas == 2 && AtTarget(s) && InOrderFrom(s, 1)
    requires 0 in s.w.pods && PodReady(s.w.pods[0]) && s.w.pods[0].revision != s.w.revision
    ensures var t := Run(s, events);
      t.op.Idle? && t.cfg == s.cfg && t.w == s.w.(pods := s.w.pods - {0}) && t.h.orphaned == s.h.orphaned + {0}
    ensures AllNeutral(events)
  {
    var a := ScanBegins(s);
    var t := Run(s, a);
    var b := ScanReaches(t, 1, 0);
    var calls := [MakeCall(Acked), MakeCall(Acked)];
    PodIsDeleted(Run(t, b), 0);
    RunAppend(s, a, b);
    RunAppend(s, a + b, calls);
    RunSnoc(s, a + b + calls, Return);
    NeutralAppend(a, b);
    NeutralAppend(a + b, calls);
    NeutralAppend(a + b + calls, [Return]);
    events := a + b + calls + [Return];
  }

  /** Unsafe moments do occur: with one change of revision on the way, the operator takes down two pods at once. */
  lemma NewRevisionTakesDownTwo() returns (s: State, before: seq<Event>, revision: string, after: seq<Event>)
    ensures Fresh(s) && AtTarget(s) && AllNeutral(before) && AllNeutral(after)
    ensures |Run(s, before + [SetRevision(revision)] + after).h.orphaned| > 1
  {
    var above, below := Pod(1, 0, true, [true], "b"), Pod(0, 0, true, [true], "a");
    var w := World(2, 0, "b", map[1 := above, 0 := below], 2, map[1 := Member("", "", "Up", 0, 0)], {}, 2, 0);
    s := State(Config(Plain, "sts", []), w, Idle, History({}, {}, {}));
    revision := "c";
    before := LowerPodGoes(s);
    var t := Run(s, before);
    RunSnoc(s, before, SetRevision(revision));
    after := DeletionAbove(Apply(t, SetRevision(revision)), 0, 1);
    RunAppend(s, before + [SetRevision(revision)], after);
    TwoIsTooMany(Run(s, before + [SetRevision(revision)] + after).h.orphaned, 0, 1);
  }
}
