/** What an undisturbed reconcile of a calm cluster does: scale, or one step for the highest pod not in order. */
module Undisturbed {
  import opened Wrappers
  import opened Names
  import opened StatefulSets
  import opened Operation
  import opened Progress

  /** What a reconcile reads of the members of a calm cluster. */
  function MembersOf(s: State, n: nat): (members: seq<Member>)
    ensures |members| == n
    ensures forall m :: 0 <= m < n ==> members[m] == ReadStatus(s, m, true)
  {
    if n == 0 then [] else MembersOf(s, n - 1) + [ReadStatus(s, n - 1, true)]
  }

  function ViewOf(s: State): (v: View)
    ensures v.Listed()
  {
    View(s.cfg.kind, s.cfg.name, s.cfg.templates, s.w.replicas, s.w.replicas, s.w.revision, Goal(s.cfg, s.w),
         if s.cfg.kind.Plain? then [] else MembersOf(s, s.w.replicas))
  }

  /** The reconcile `s` is in has read the cluster as it is. */
  ghost predicate Current(s: State) {
    && s.op.Running? && s.op.v == ViewOf(s) && s.op.version == Some(s.w.stsVersion)
    && Calm(s.cfg, s.w)
  }

  lemma {:induction false} ReadAllEnds(s: State, base: State)
    requires s.op.Reading? && s == base.(op := s.op)
    requires s.op.count == base.w.replicas && |s.op.v.members| < s.op.count && !s.cfg.kind.Plain?
    requires s.op.v.members == MembersOf(base, |s.op.v.members|)
    requires s.op.v == ViewOf(base).(members := s.op.v.members) && s.op.version == Some(base.w.stsVersion)
    ensures ReadAll(s) == base.(op := Running(ViewOf(base), Some(base.w.stsVersion), Start(ViewOf(base)), map[], []))
    decreases s.op.count - |s.op.v.members|
  {
    var k := |s.op.v.members|;
    var t := ApplyRead(s, true);
    assert ReadStatus(s, k, true) == ReadStatus(base, k, true);
    var members := s.op.v.members + [ReadStatus(s, k, true)];
    assert members == MembersOf(base, k + 1);
    assert ReadAll(s) == ReadAll(t);
    if k + 1 < s.op.count {
      ReadAllEnds(t, base);
    } else {
      assert s.op.v.(members := members) == ViewOf(base);
    }
  }

  /** Where the reads leave a reconcile that finds the counts in agreement. */
  lemma ReadsLeadToStart(s: State)
    requires s.op.Idle? && (s.cfg.kind.Plain? || s.w.replicas > 0)
    ensures ReadAll(ApplyBegin(s, Begin(s.w.replicas, s.w.replicas, true, None)))
      == s.(h := s.h.(touched := {}), op := Running(ViewOf(s), Some(s.w.stsVersion), Start(ViewOf(s)), map[], []))
  {
    var t := ApplyBegin(s, Begin(s.w.replicas, s.w.replicas, true, None));
    var base := s.(h := s.h.(touched := {}));
    assert ViewOf(base) == ViewOf(s);
    if !s.cfg.kind.Plain? {
      ReadAllEnds(t, base);
    }
  }

  /** Where the reads leave an undisturbed reconcile. */
  lemma ReadsEnd(s: State)
    requires s.op.Idle? && Calm(s.cfg, s.w)
    ensures var t := ReadAll(ApplyBegin(s, Begin(s.w.replicas, s.w.replicas, true, None)));
      && t.cfg == s.cfg && t.w == s.w && Current(t) && t.op.pc == Start(t.op.v)
  {
    ReadsLeadToStart(s);
  }

  /** Pod `n` is on the update revision and its member in service. */
  predicate InOrder(v: View, w: World, n: nat) {
    && n in w.pods && PodReady(w.pods[n]) && !Outdated(v, w.pods[n])
    && (v.kind.Plain? || (n < |v.members| && v.members[n].status == "Up"))
  }

  /** The highest ordinal below `n` that is not in order. */
  function Focus(v: View, w: World, n: nat): (m: Option<nat>)
    ensures m.Some? ==> m.value < n && !InOrder(v, w, m.value)
    ensures m.None? ==> forall k: nat :: k < n ==> InOrder(v, w, k)
  {
    if n == 0 then None
    else if !InOrder(v, w, n - 1) then Some(n - 1)
    else Focus(v, w, n - 1)
  }

  /** The cluster after the one call, if any, that pod `n` calls for. */
  function AfterVisit(v: View, w: World, n: nat): World
    requires n in w.pods && (v.kind.Plain? || n < |v.members|)
  {
    var pc := Visit(v, n, w.pods[n]);
    if pc.Done? then w
    else
      var effect := Effect(w, Issue(v, pc), None);
      if effect.Some? then effect.value else w
  }

  lemma VisitInOrder(v: View, w: World, n: nat)
    requires n in w.pods && (v.kind.Plain? || n < |v.members|) && InOrder(v, w, n)
    ensures Visit(v, n, w.pods[n]) == Below(v, n)
  {
  }

  lemma VisitNotInOrder(v: View, w: World, n: nat)
    requires n in w.pods && PodReady(w.pods[n]) && (v.kind.Plain? || n < |v.members|) && !InOrder(v, w, n)
    ensures var pc := Visit(v, n, w.pods[n]);
      && (pc.Done? ==> pc.phase != Ready)
      && (!pc.Done? ==> pc.AtPrepare? || pc.AtDelete? || pc.AtRelease?)
  {
  }

  /** A call that ends the scan. */
  lemma LastCall(s: State)
    requires Calling(s) && (s.op.pc.AtPrepare? || s.op.pc.AtDelete? || s.op.pc.AtRelease?)
    requires !s.op.pc.AtDelete? ==> !Issue(s.op.v, s.op.pc).UpdateReplicas?
    ensures var effect := Effect(s.w, Issue(s.op.v, s.op.pc), None);
      && Finish(s).w == (if effect.Some? then effect.value else s.w)
      && !ReportsReady(Finish(s))
  {
    CallEffect(s);
    var t := ApplyCall(s, Acked);
    assert t.op.pc.Done?;
    assert Finish(s) == Finish(t) && Finish(t) == t;
  }

  lemma PodIsRead(s: State, m: nat)
    requires Current(s) && m < s.w.replicas && s.op.pc == AtGetPod(m)
    ensures var t := ApplyCall(s, Acked);
      && Finish(s) == Finish(t) && Current(t) && t.w == s.w && t.op.v == s.op.v
      && t.op.pc == Visit(s.op.v, m, s.w.pods[m])
  {
    CallEffect(s);
  }

  lemma StopEnds(s: State, m: nat)
    requires Current(s) && m < s.w.replicas && !InOrder(s.op.v, s.w, m)
    requires s.op.pc == Visit(s.op.v, m, s.w.pods[m])
    ensures Finish(s).w == AfterVisit(s.op.v, s.w, m) && !ReportsReady(Finish(s))
  {
    VisitNotInOrder(s.op.v, s.w, m);
    if !s.op.pc.Done? {
      LastCall(s);
    }
  }

  /** The scan ended as the highest pod not in order, if any, calls for. */
  ghost predicate EndedAt(v: View, w: World, focus: Option<nat>, t: State) {
    if focus.None? then t.w == w && ReportsReady(t)
    else
      var m := focus.value;
      m in w.pods && (v.kind.Plain? || m < |v.members|) && t.w == AfterVisit(v, w, m) && !ReportsReady(t)
  }

  lemma TrimEnds(s: State) returns (end: State)
    requires Current(s) && s.op.pc.AtTrim?
    ensures end == Finish(s) && EndedAt(s.op.v, s.w, None, end)
  {
    CallEffect(s);
    end := ApplyCall(s, Acked);
    assert Finish(s) == Finish(end) && Finish(end) == end;
  }

  lemma ScanPasses(s: State, m: nat) returns (t: State)
    requires Current(s) && m < s.w.replicas && s.op.pc == AtGetPod(m) && InOrder(s.op.v, s.w, m)
    ensures Finish(s) == Finish(t) && Current(t) && t.w == s.w && t.op.v == s.op.v && t.op.pc == Below(s.op.v, m)
  {
    t := ApplyCall(s, Acked);
    PodIsRead(s, m);
    VisitInOrder(s.op.v, s.w, m);
  }

  lemma ScanStops(s: State, m: nat) returns (end: State)
    requires Current(s) && m < s.w.replicas && s.op.pc == AtGetPod(m) && !InOrder(s.op.v, s.w, m)
    ensures end == Finish(s) && EndedAt(s.op.v, s.w, Some(m), end)
  {
    PodIsRead(s, m);
    StopEnds(ApplyCall(s, Acked), m);
    end := Finish(s);
  }

  /** The reconcile has come down to ordinal `n`, with view `v` of the cluster `w`. */
  ghost predicate DownTo(s: State, v: View, w: World, n: nat)
    requires v.kind.Plain? || n <= |v.members|
  {
    Current(s) && s.op.v == v && s.w == w && n <= w.replicas && s.op.pc == Below(v, n)
  }

  /** Whether the scan goes on below ordinal `n`, or how it ends there. */
  lemma ScanGoesOn(s: State, v: View, w: World, n: nat) returns (t: State, focus: Option<nat>, goesOn: bool)
    requires v.kind.Plain? || n <= |v.members|
    requires DownTo(s, v, w, n)
    ensures goesOn ==> n > 0 && DownTo(t, v, w, n - 1) && Finish(t) == Finish(s) && Focus(v, w, n) == Focus(v, w, n - 1)
    ensures !goesOn ==> t == Finish(s) && focus == Focus(v, w, n) && EndedAt(v, w, focus, t)
  {
    goesOn, focus := n > 0 && InOrder(v, w, n - 1), None;
    if n == 0 {
      t := TrimEnds(s);
    } else if goesOn {
      t := ScanPasses(s, n - 1);
    } else {
      t := ScanStops(s, n - 1);
      focus := Some(n - 1);
    }
  }

  lemma {:induction false} ScanEndsAtFocus(s: State, v: View, w: World, n: nat) returns (focus: Option<nat>, end: State)
    requires v.kind.Plain? || n <= |v.members|
    requires DownTo(s, v, w, n)
    ensures end == Finish(s) && focus == Focus(v, w, n) && EndedAt(v, w, focus, end)
    decreases n
  {
    var t, stop, goesOn := ScanGoesOn(s, v, w, n);
    if goesOn {
      focus, end := ScanEndsAtFocus(t, v, w, n - 1);
    } else {
      focus, end := stop, t;
    }
  }

  /** An undisturbed scan does one step for the highest pod not in order, or reports Ready. */
  lemma {:induction false} ScanEnds(s: State, n: nat)
    requires Current(s) && n <= s.w.replicas && s.op.pc == Below(s.op.v, n)
    ensures match Focus(s.op.v, s.w, n)
      case None => Finish(s).w == s.w && ReportsReady(Finish(s))
      case Some(m) => Finish(s).w == AfterVisit(s.op.v, s.w, m) && !ReportsReady(Finish(s))
  {
    var focus, end := ScanEndsAtFocus(s, s.op.v, s.w, n);
  }

  /** Scaling up is one write. */
  lemma ScaleUpEnds(s: State)
    requires Current(s) && s.op.pc == Start(s.op.v) && Goal(s.cfg, s.w) > s.w.replicas
    ensures Finish(s).w == s.w.(replicas := Goal(s.cfg, s.w), stsVersion := s.w.stsVersion + 1)
    ensures !ReportsReady(Finish(s))
  {
    CallEffect(s);
    var t := ApplyCall(s, Acked);
    assert Finish(s) == Finish(t) && Finish(t) == t;
  }

  /** The revision and the replicas, stored and wanted, are the same. */
  predicate SameTarget(w: World, u: World) {
    u.replicas == w.replicas && u.spec == w.spec && u.factor == w.factor && u.revision == w.revision
  }

  lemma {:induction false} ClaimsEnd(s: State)
    requires s.op.Running? && Fits(s.op.v, s.op.pc)
    requires s.op.pc.AtGetClaim? || s.op.pc.AtDeleteClaim? || (s.op.pc.Done? && s.op.pc.phase != Ready)
    ensures SameTarget(s.w, Finish(s).w) && !ReportsReady(Finish(s))
    decreases Rank(s.op.v, s.op.pc)
  {
    if !s.op.pc.Done? {
      CallEffect(s);
      CallDescends(s);
      ClaimsEnd(ApplyCall(s, Acked));
    }
  }

  lemma ShrinkEnds(s: State)
    requires s.op.Running? && s.op.pc.AtScaleDown? && s.op.version == Some(s.w.stsVersion)
    ensures SameTarget(s.w.(replicas := s.op.pc.n), Finish(s).w) && !ReportsReady(Finish(s))
  {
    CallEffect(s);
    ClaimsEnd(ApplyCall(s, Acked));
  }

  lemma RemovalEnds(s: State)
    requires s.op.Running? && s.op.pc.AtRemoval? && s.op.version == Some(s.w.stsVersion) && Fits(s.op.v, s.op.pc)
    ensures SameTarget(s.w.(replicas := s.op.pc.n), Finish(s).w) && !ReportsReady(Finish(s))
  {
    CallEffect(s);
    ShrinkEnds(ApplyCall(s, Acked));
  }

  /** The cluster after a quarantine that is not complete. */
  function AfterQuarantine(v: View, w: World, n: nat): World
    requires v.kind.Plain? || n < |v.members|
  {
    var answer := QuarantineForScaleDown(v.kind, v.members, n);
    if !answer.Request? then w
    else
      var effect := Effect(w, answer.call, None);
      if effect.Some? then effect.value else w
  }

  lemma QuarantineEnds(s: State)
    requires Current(s) && s.op.pc.AtQuarantine? && !s.op.pc.request.UpdateReplicas?
    ensures var effect := Effect(s.w, s.op.pc.request, None);
      Finish(s).w == (if effect.Some? then effect.value else s.w) && !ReportsReady(Finish(s))
  {
    CallEffect(s);
    var t := ApplyCall(s, Acked);
    assert Finish(s) == Finish(t) && Finish(t) == t;
  }

  lemma {:induction false} ScaleDownEnds(s: State)
    requires Current(s) && s.op.pc == Start(s.op.v) && Goal(s.cfg, s.w) < s.w.replicas
    ensures var n: nat := s.w.replicas - 1;
      && !ReportsReady(Finish(s))
      && (if QuarantineForScaleDown(s.op.v.kind, s.op.v.members, n) == Settled(true)
          then SameTarget(s.w.(replicas := n), Finish(s).w)
          else Finish(s).w == AfterQuarantine(s.op.v, s.w, n))
  {
    match s.op.pc
    case AtQuarantine(_, _) => QuarantineEnds(s);
    case AtRemoval(_) => RemovalEnds(s);
    case AtScaleDown(_) => ShrinkEnds(s);
    case Done(_, _) =>
  }
}
