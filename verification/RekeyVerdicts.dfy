/**
 How every pass of a re-key ends, call by call: which calls it makes, where it breaks off, and that it
 reports success only after reading the secret of every indexer.
 */
module RekeyVerdicts {
  import opened Wrappers
  import opened Rekey
  import opened RekeyRuns

  /** The call went through and, if it reads what a pod mounts, found it. */
  predicate Granted(w: World, call: Call, fate: Fate) {
    fate.Acked? && (call.ReadPodSecret? ==> call.i < |w.mounted| && w.mounted[call.i] in w.secrets)
  }

  /** The pod's secret holds another key than the namespace secret. */
  predicate Differs(w: World, i: nat) {
    i < |w.mounted| && w.mounted[i] in w.secrets && w.secrets[w.mounted[i]] != w.key
  }

  /** For indexer `i`: read its secret; if it differs, enter maintenance mode once, and re-key it unless flagged. */
  function PodPlan(changed: seq<bool>, w: World, i: nat, on: bool): seq<Call> {
    [ReadPodSecret(i)]
    + (if Differs(w, i) && !on then [EnableMaintenance] else [])
    + (if Differs(w, i) && !(i < |changed| && changed[i]) then [SetKey(i), Restart(i)] else [])
  }

  /** The same for all indexers from `i` on; maintenance mode stays on once entered. */
  function PodsPlan(changed: seq<bool>, w: World, i: nat, replicas: nat, on: bool): seq<Call>
    decreases replicas - i
  {
    if i >= replicas then []
    else PodPlan(changed, w, i, on) + PodsPlan(changed, w, i + 1, replicas, on || Differs(w, i))
  }

  /** Planned calls are made in turn, up to the first that is not granted. */
  function Made(plan: seq<Call>, w: World, fates: nat -> Fate, at: nat): (calls: seq<Call>)
    ensures calls <= plan
    decreases |plan|
  {
    if plan == [] then []
    else if !Granted(w, plan[0], fates(at)) then [plan[0]]
    else [plan[0]] + Made(plan[1..], w, fates, at + 1)
  }

  predicate AllGranted(plan: seq<Call>, w: World, fates: nat -> Fate, at: nat)
    decreases |plan|
  {
    plan == [] || (Granted(w, plan[0], fates(at)) && AllGranted(plan[1..], w, fates, at + 1))
  }

  function CallsOf(log: seq<Entry>): (calls: seq<Call>)
    ensures |calls| == |log| && forall k :: 0 <= k < |log| ==> calls[k] == log[k].call
  {
    seq(|log|, k requires 0 <= k < |log| => log[k].call)
  }

  /** The log went on with the calls, each with its own fate. */
  ghost predicate Logged(w: World, u: World, calls: seq<Call>, fates: nat -> Fate) {
    && w.log <= u.log && CallsOf(u.log) == CallsOf(w.log) + calls
    && forall k :: |w.log| <= k < |u.log| ==> u.log[k].fate == fates(k)
  }

  /** A pass that carries out a plan, and fails exactly if something was not granted. */
  ghost predicate CarriesOut(w: World, one: Pass, plan: seq<Call>, fates: nat -> Fate) {
    && Logged(w, one.w, Made(plan, w, fates, |w.log|), fates)
    && one.failed == !AllGranted(plan, w, fates, |w.log|)
    && SameKeys(w, one.w)
  }

  lemma DoLogs(w: World, call: Call, fates: nat -> Fate) returns (u: World)
    ensures u == Do(w, call, fates(|w.log|)) && Logged(w, u, [call], fates)
    ensures !call.WriteSecret? && !call.MakeSecret? ==> SameKeys(w, u)
  {
    u := Do(w, call, fates(|w.log|));
    assert CallsOf(u.log) == CallsOf(w.log) + [call];
  }

  lemma {:induction false} MadeAppend(a: seq<Call>, b: seq<Call>, w: World, fates: nat -> Fate, at: nat)
    ensures Made(a + b, w, fates, at)
      == if AllGranted(a, w, fates, at) then a + Made(b, w, fates, at + |a|) else Made(a, w, fates, at)
    ensures AllGranted(a + b, w, fates, at) <==> AllGranted(a, w, fates, at) && AllGranted(b, w, fates, at + |a|)
    ensures AllGranted(a, w, fates, at) ==> Made(a, w, fates, at) == a
    decreases |a|
  {
    if a == [] {
      assert a + b == b;
    } else {
      assert (a + b)[1..] == a[1..] + b;
      MadeAppend(a[1..], b, w, fates, at + 1);
    }
  }

  lemma LoggedJoins(w: World, u: World, x: World, a: seq<Call>, b: seq<Call>, fates: nat -> Fate)
    requires Logged(w, u, a, fates) && Logged(u, x, b, fates)
    ensures Logged(w, x, a + b, fates) && |u.log| == |w.log| + |a|
  {
    assert |CallsOf(u.log)| == |w.log| + |a|;
    assert CallsOf(w.log) + a + b == CallsOf(w.log) + (a + b);
    forall k | |w.log| <= k < |x.log| ensures x.log[k].fate == fates(k) {
      assert k < |u.log| ==> x.log[k] == u.log[k];
    }
  }

  lemma {:induction false} SameGrants(plan: seq<Call>, w: World, u: World, fates: nat -> Fate, at: nat)
    requires SameKeys(w, u)
    ensures Made(plan, w, fates, at) == Made(plan, u, fates, at)
    ensures AllGranted(plan, w, fates, at) <==> AllGranted(plan, u, fates, at)
    decreases |plan|
  {
    if plan != [] {
      SameGrants(plan[1..], w, u, fates, at + 1);
    }
  }

  /** Two plans carried out one after the other, the second only if the first was granted. */
  lemma PlansJoin(w: World, one: Pass, two: Pass, a: seq<Call>, b: seq<Call>, fates: nat -> Fate)
    requires CarriesOut(w, one, a, fates) && (if one.failed then two == one else CarriesOut(one.w, two, b, fates))
    ensures CarriesOut(w, two, a + b, fates)
  {
    MadeAppend(a, b, w, fates, |w.log|);
    if !one.failed {
      SecondJoins(w, one, two, a, b, a + b, fates);
    }
  }

  lemma SecondJoins(w: World, one: Pass, two: Pass, a: seq<Call>, b: seq<Call>, ab: seq<Call>, fates: nat -> Fate)
    requires Logged(w, one.w, a, fates) && SameKeys(w, one.w) && CarriesOut(one.w, two, b, fates)
    requires Made(ab, w, fates, |w.log|) == a + Made(b, w, fates, |w.log| + |a|)
    requires AllGranted(ab, w, fates, |w.log|) <==> AllGranted(b, w, fates, |w.log| + |a|)
    ensures CarriesOut(w, two, ab, fates)
  {
    LogLength(w, one.w, a, fates);
    SameGrants(b, w, one.w, fates, |one.w.log|);
    LoggedJoins(w, one.w, two.w, a, Made(b, one.w, fates, |one.w.log|), fates);
  }

  lemma LogLength(w: World, u: World, calls: seq<Call>, fates: nat -> Fate)
    requires Logged(w, u, calls, fates)
    ensures |u.log| == |w.log| + |calls|
  {
    assert |CallsOf(u.log)| == |CallsOf(w.log) + calls|;
  }

  /** A single call. */
  lemma CallMade(st: Status, w: World, call: Call, fates: nat -> Fate) returns (one: Pass)
    requires !call.WriteSecret? && !call.MakeSecret?
    ensures one == Pass(st, Do(w, call, fates(|w.log|)), !Granted(w, call, fates(|w.log|)))
    ensures CarriesOut(w, one, [call], fates)
  {
    var u := DoLogs(w, call, fates);
    one := Pass(st, u, !Granted(w, call, fates(|w.log|)));
    assert [call][1..] == [];
    assert [call] + [] == [call];
  }

  lemma NothingMade(st: Status, w: World, fates: nat -> Fate)
    ensures CarriesOut(w, Pass(st, w, false), [], fates)
  {
    assert CallsOf(w.log) + [] == CallsOf(w.log);
  }

  lemma RekeyEnds(st: Status, w: World, i: nat, fates: nat -> Fate)
    requires i < |w.mounted|
    ensures CarriesOut(w, RekeyPod(st, w, i, fates), [SetKey(i), Restart(i)], fates)
  {
    var one := CallMade(st, w, SetKey(i), fates);
    var two := CallMade(st, one.w, Restart(i), fates);
    var all := RekeyPod(st, w, i, fates);
    assert CarriesOut(one.w, Pass(all.st, two.w, two.failed), [Restart(i)], fates);
    PlansJoin(w, one, if one.failed then one else Pass(all.st, two.w, two.failed), [SetKey(i)], [Restart(i)], fates);
    assert [SetKey(i)] + [Restart(i)] == [SetKey(i), Restart(i)];
  }

  lemma EnterEnds(st: Status, w: World, fates: nat -> Fate)
    ensures var on := st.changed != [] || st.maintenance;
      CarriesOut(w, EnterMaintenance(st, w, fates), if on then [] else [EnableMaintenance], fates)
  {
    NothingMade(st, w, fates);
    var one := CallMade(st, w, EnableMaintenance, fates);
    assert CarriesOut(w, Pass(st.(maintenance := true), one.w, one.failed), [EnableMaintenance], fates);
  }

  predicate Done(changed: seq<bool>, i: nat) {
    i < |changed| && changed[i]
  }

  /** Entering maintenance mode and re-keying, for an indexer whose secret differs. */
  lemma DifferingEnds(st: Status, w: World, i: nat, fates: nat -> Fate)
    requires Differs(w, i)
    ensures var entered := EnterMaintenance(st, w, fates);
      CarriesOut(w, if entered.failed || Flagged(entered.st, i) then entered
                    else RekeyPod(entered.st, entered.w, i, fates),
                 (if st.changed == [] && !st.maintenance then [EnableMaintenance] else [])
                 + (if Done(st.changed, i) then [] else [SetKey(i), Restart(i)]), fates)
  {
    var entered := EnterMaintenance(st, w, fates);
    EnterEnds(st, w, fates);
    var a := if st.changed == [] && !st.maintenance then [EnableMaintenance] else [];
    var b := if Done(st.changed, i) then [] else [SetKey(i), Restart(i)];
    if !entered.failed {
      if Done(st.changed, i) {
        NothingMade(entered.st, entered.w, fates);
        PlansJoin(w, entered, entered, a, b, fates);
      } else {
        RekeyEnds(entered.st, entered.w, i, fates);
        PlansJoin(w, entered, RekeyPod(entered.st, entered.w, i, fates), a, b, fates);
      }
    } else {
      PlansJoin(w, entered, entered, a, b, fates);
    }
  }

  lemma VisitEnds(st: Status, w: World, i: nat, fates: nat -> Fate)
    ensures CarriesOut(w, VisitPod(st, w, i, fates),
                       PodPlan(st.changed, w, i, st.changed != [] || st.maintenance), fates)
  {
    if Differs(w, i) {
      DifferingVisitEnds(st, w, i, fates);
    } else {
      var one := CallMade(st, w, ReadPodSecret(i), fates);
      assert PodPlan(st.changed, w, i, st.changed != [] || st.maintenance) == [ReadPodSecret(i)];
    }
  }

  lemma DifferingVisitEnds(st: Status, w: World, i: nat, fates: nat -> Fate)
    requires Differs(w, i)
    ensures CarriesOut(w, VisitPod(st, w, i, fates),
                       PodPlan(st.changed, w, i, st.changed != [] || st.maintenance), fates)
  {
    var one := CallMade(st, w, ReadPodSecret(i), fates);
    var more := (if st.changed == [] && !st.maintenance then [EnableMaintenance] else [])
                + (if Done(st.changed, i) then [] else [SetKey(i), Restart(i)]);
    DifferingEnds(st, one.w, i, fates);
    PlansJoin(w, one, VisitPod(st, w, i, fates), [ReadPodSecret(i)], more, fates);
    assert [ReadPodSecret(i)] + more == PodPlan(st.changed, w, i, st.changed != [] || st.maintenance);
  }

  /** What a visit to pod `i` that did not fail leaves for the visits to come. */
  lemma VisitLeaves(st: Status, w: World, i: nat, fates: nat -> Fate)
    ensures var one := VisitPod(st, w, i, fates);
      && one.st.version == st.version
      && (!one.failed ==>
            && (one.st.changed != [] || one.st.maintenance <==> st.changed != [] || st.maintenance || Differs(w, i))
            && forall j: nat :: j > i ==> (Done(one.st.changed, j) <==> Done(st.changed, j)))
  {
  }

  lemma {:induction false} PlanAgrees(a: seq<bool>, b: seq<bool>, w: World, u: World, i: nat, replicas: nat, on: bool)
    requires SameKeys(w, u) && forall j: nat :: j >= i ==> (Done(a, j) <==> Done(b, j))
    ensures PodsPlan(a, w, i, replicas, on) == PodsPlan(b, u, i, replicas, on)
    decreases replicas - i
  {
    if i < replicas {
      assert Done(a, i) <==> Done(b, i);
      PlanAgrees(a, b, w, u, i + 1, replicas, on || Differs(w, i));
    }
  }

  /** The pass over the indexers makes the planned calls, up to the first that is not granted. */
  lemma {:induction false} PodsEnd(st: Status, w: World, i: nat, replicas: nat, fates: nat -> Fate)
    ensures CarriesOut(w, VisitPods(st, w, i, replicas, fates),
                       PodsPlan(st.changed, w, i, replicas, st.changed != [] || st.maintenance), fates)
    decreases replicas - i
  {
    if i >= replicas {
      NothingMade(st, w, fates);
    } else {
      var one, on := VisitPod(st, w, i, fates), st.changed != [] || st.maintenance;
      VisitEnds(st, w, i, fates);
      VisitLeaves(st, w, i, fates);
      if !one.failed {
        PodsEnd(one.st, one.w, i + 1, replicas, fates);
        PlanAgrees(one.st.changed, st.changed, one.w, w, i + 1, replicas, on || Differs(w, i));
      }
      PlansJoin(w, one, VisitPods(st, w, i, replicas, fates), PodPlan(st.changed, w, i, on),
                PodsPlan(st.changed, w, i + 1, replicas, on || Differs(w, i)), fates);
    }
  }

  /** A call of the log, past `at`, that went through. */
  ghost predicate WentThrough(log: seq<Entry>, at: nat, call: Call) {
    exists k :: at <= k < |log| && log[k].call == call && log[k].fate.Acked?
  }

  lemma {:induction false} PlanGranted(plan: seq<Call>, w: World, fates: nat -> Fate, at: nat, k: nat)
    requires AllGranted(plan, w, fates, at) && k < |plan|
    ensures Made(plan, w, fates, at) == plan && Granted(w, plan[k], fates(at + k))
    decreases |plan|
  {
    MadeAppend(plan, [], w, fates, at);
    if k > 0 {
      PlanGranted(plan[1..], w, fates, at + 1, k - 1);
    }
  }

  /** A plan carried out to the end put each of its calls through. */
  lemma PlanWentThrough(w: World, one: Pass, plan: seq<Call>, fates: nat -> Fate, call: Call)
    requires CarriesOut(w, one, plan, fates) && !one.failed && call in plan
    ensures WentThrough(one.w.log, |w.log|, call) && (call.ReadPodSecret? ==> Readable(w, call.i))
  {
    var k :| 0 <= k < |plan| && plan[k] == call;
    PlanGranted(plan, w, fates, |w.log|, k);
    assert CallsOf(one.w.log)[|w.log| + k] == plan[k];
    assert one.w.log[|w.log| + k].call == call;
  }

  lemma {:induction false} PodsPlanHas(changed: seq<bool>, w: World, i: nat, replicas: nat, on: bool, m: nat)
    requires i <= m < replicas
    ensures ReadPodSecret(m) in PodsPlan(changed, w, i, replicas, on)
    ensures Differs(w, m) && !Done(changed, m) ==>
      SetKey(m) in PodsPlan(changed, w, i, replicas, on) && Restart(m) in PodsPlan(changed, w, i, replicas, on)
    decreases m - i
  {
    if i < m {
      PodsPlanHas(changed, w, i + 1, replicas, on || Differs(w, i), m);
    } else {
      assert PodPlan(changed, w, i, on)[0] == ReadPodSecret(m);
      if Differs(w, m) && !Done(changed, m) {
        assert [SetKey(m), Restart(m)][0] in [SetKey(m), Restart(m)];
        assert [SetKey(m), Restart(m)][1] in [SetKey(m), Restart(m)];
      }
    }
  }

  /** The secret of indexer `m` has been read and compared, and the indexer re-keyed if it had to be. */
  ghost predicate Compared(st: Status, w: World, u: World, m: nat) {
    && Readable(w, m) && WentThrough(u.log, |w.log|, ReadPodSecret(m))
    && (w.secrets[w.mounted[m]] != w.key && !Done(st.changed, m) ==>
          WentThrough(u.log, |w.log|, SetKey(m)) && WentThrough(u.log, |w.log|, Restart(m)))
  }

  lemma PodsCompared(st: Status, w: World, replicas: nat, fates: nat -> Fate, m: nat)
    requires !VisitPods(st, w, 0, replicas, fates).failed && m < replicas
    ensures Compared(st, w, VisitPods(st, w, 0, replicas, fates).w, m)
  {
    var on := st.changed != [] || st.maintenance;
    var plan := PodsPlan(st.changed, w, 0, replicas, on);
    PodsEnd(st, w, 0, replicas, fates);
    PodsPlanHas(st.changed, w, 0, replicas, on, m);
    PlanWentThrough(w, VisitPods(st, w, 0, replicas, fates), plan, fates, ReadPodSecret(m));
    if Differs(w, m) && !Done(st.changed, m) {
      PlanWentThrough(w, VisitPods(st, w, 0, replicas, fates), plan, fates, SetKey(m));
      PlanWentThrough(w, VisitPods(st, w, 0, replicas, fates), plan, fates, Restart(m));
    }
  }

  /** The calls by which one recorded secret is written, each made only if the one before went through. */
  function WriteCalls(w: World, name: string, fates: nat -> Fate): seq<Call> {
    var at := |w.log|;
    if !fates(at).Acked? || name !in w.secrets then [ReadSecret(name)]
    else if !fates(at + 1).Acked? then [ReadSecret(name), ReadNamespaceSecret]
    else
      [ReadSecret(name), ReadNamespaceSecret, ReadSecret(name),
       if fates(at + 2).Acked? then WriteSecret(name) else MakeSecret(name)]
  }

  /** The last call made was turned down, or read a secret that is not there. */
  ghost predicate EndsDenied(w: World, u: World) {
    |u.log| > |w.log| && var last := u.log[|u.log| - 1];
    !last.fate.Acked? || (last.call.ReadSecret? && last.call.name !in w.secrets)
  }

  /** The cluster after the calls, made in turn. */
  function After(w: World, calls: seq<Call>, fates: nat -> Fate): World
    decreases |calls|
  {
    if calls == [] then w else After(Do(w, calls[0], fates(|w.log|)), calls[1..], fates)
  }

  lemma {:induction false} AfterLogs(w: World, calls: seq<Call>, fates: nat -> Fate)
    ensures Logged(w, After(w, calls, fates), calls, fates)
    decreases |calls|
  {
    if calls == [] {
      assert CallsOf(w.log) + [] == CallsOf(w.log);
    } else {
      var u := DoLogs(w, calls[0], fates);
      AfterLogs(u, calls[1..], fates);
      LoggedJoins(w, u, After(u, calls[1..], fates), [calls[0]], calls[1..], fates);
      assert [calls[0]] + calls[1..] == calls;
    }
  }

  lemma AfterTwo(w: World, a: Call, b: Call, rest: seq<Call>, fates: nat -> Fate)
    ensures var w1 := Do(w, a, fates(|w.log|));
      After(w, [a, b] + rest, fates) == After(Do(w1, b, fates(|w1.log|)), rest, fates)
  {
    var calls := [a, b] + rest;
    assert calls[1..] == [b] + rest && ([b] + rest)[1..] == rest;
  }

  lemma WriteLogs(st: Status, w: World, name: string, fates: nat -> Fate)
    requires name in st.passwords && st.passwords[name]
    ensures Logged(w, WriteOne(st, w, name, fates).w, WriteCalls(w, name, fates), fates)
  {
    AfterLogs(w, WriteCalls(w, name, fates), fates);
    WriteIsAfter(st, w, name, fates);
  }

  lemma WriteIsAfter(st: Status, w: World, name: string, fates: nat -> Fate)
    requires name in st.passwords && st.passwords[name]
    ensures WriteOne(st, w, name, fates).w == After(w, WriteCalls(w, name, fates), fates)
  {
    var w1 := Do(w, ReadSecret(name), fates(|w.log|));
    var w2 := Do(w1, ReadNamespaceSecret, fates(|w1.log|));
    if !fates(|w.log|).Acked? || name !in w.secrets {
      AfterOne(w, ReadSecret(name), fates);
    } else {
      var rest := if fates(|w.log| + 1).Acked? then WriteCalls(w, name, fates)[2..] else [];
      AfterTwo(w, ReadSecret(name), ReadNamespaceSecret, rest, fates);
      assert WriteCalls(w, name, fates) == [ReadSecret(name), ReadNamespaceSecret] + rest;
      if fates(|w.log| + 1).Acked? {
        WriteBackIsAfter(st, w2, name, fates);
      }
    }
  }

  lemma WriteBackIsAfter(st: Status, w: World, name: string, fates: nat -> Fate)
    requires name in w.secrets
    ensures WriteBack(st, w, name, fates).w
      == After(w, [ReadSecret(name), if fates(|w.log|).Acked? then WriteSecret(name) else MakeSecret(name)], fates)
  {
    var calls := [ReadSecret(name), if fates(|w.log|).Acked? then WriteSecret(name) else MakeSecret(name)];
    AfterTwo(w, calls[0], calls[1], [], fates);
    assert calls == [calls[0], calls[1]] + [];
  }

  lemma AfterOne(w: World, a: Call, fates: nat -> Fate)
    ensures After(w, [a], fates) == Do(w, a, fates(|w.log|))
  {
    assert [a][1..] == [];
  }

  /** The status follows the last call. */
  lemma WriteMarks(st: Status, w: World, name: string, fates: nat -> Fate)
    requires name in st.passwords && st.passwords[name]
    ensures var one, calls, at := WriteOne(st, w, name, fates), WriteCalls(w, name, fates), |w.log|;
      && (one.failed <==> !fates(at + |calls| - 1).Acked? || name !in w.secrets)
      && one.st == (if one.failed then st else st.(passwords := st.passwords[name := false]))
      && one.w.secrets.Keys == w.secrets.Keys
  {
  }

  /** A recorded secret that is due is written by those calls, and is no longer due unless the last was denied. */
  lemma WriteEnds(st: Status, w: World, name: string, fates: nat -> Fate) returns (one: Pass)
    ensures one == WriteOne(st, w, name, fates)
    ensures !(name in st.passwords && st.passwords[name]) ==> one == Pass(st, w, false)
    ensures name in st.passwords && st.passwords[name] ==>
      && Logged(w, one.w, WriteCalls(w, name, fates), fates)
      && (one.failed <==> EndsDenied(w, one.w))
      && one.st == (if one.failed then st else st.(passwords := st.passwords[name := false]))
    ensures one.w.secrets.Keys == w.secrets.Keys && w.log <= one.w.log
  {
    one := WriteOne(st, w, name, fates);
    if name in st.passwords && st.passwords[name] {
      WriteLogs(st, w, name, fates);
      WriteMarks(st, w, name, fates);
      DeniedIff(w, one.w, name, fates);
    }
  }

  lemma DeniedIff(w: World, u: World, name: string, fates: nat -> Fate)
    requires Logged(w, u, WriteCalls(w, name, fates), fates)
    ensures EndsDenied(w, u) <==> !fates(|w.log| + |WriteCalls(w, name, fates)| - 1).Acked? || name !in w.secrets
  {
    LastLogged(w, u, WriteCalls(w, name, fates), fates);
  }

  lemma LastLogged(w: World, u: World, calls: seq<Call>, fates: nat -> Fate)
    requires Logged(w, u, calls, fates) && calls != []
    ensures |u.log| == |w.log| + |calls|
    ensures u.log[|u.log| - 1].call == calls[|calls| - 1] && u.log[|u.log| - 1].fate == fates(|u.log| - 1)
  {
    LogLength(w, u, calls, fates);
    assert CallsOf(u.log)[|u.log| - 1] == calls[|calls| - 1];
  }

  /** The walk over the recorded secrets ends in an error exactly at a call that was denied. */
  lemma {:induction false} WritesEnd(st: Status, w: World, order: seq<string>, fates: nat -> Fate) returns (done: Pass)
    ensures done == WriteSecrets(st, w, order, fates)
    ensures w.log <= done.w.log && done.w.secrets.Keys == w.secrets.Keys
    ensures done.failed ==> EndsDenied(w, done.w)
    ensures done.st == st.(passwords := done.st.passwords) && done.st.passwords.Keys == st.passwords.Keys
    ensures !done.failed ==>
      forall name <- st.passwords :: done.st.passwords[name] <==> st.passwords[name] && name !in order
    decreases |order|
  {
    if order == [] {
      done := Pass(st, w, false);
    } else {
      var one := WriteEnds(st, w, order[0], fates);
      if one.failed {
        done := one;
      } else {
        done := WritesEnd(one.st, one.w, order[1..], fates);
        assert order == [order[0]] + order[1..];
      }
    }
  }

  /** The pass is one that reads the namespace secret and finds a version other than the one on record. */
  predicate Due(st: Status, w: World) {
    st.version != "" && st.version != w.version
  }

  /** The namespace secret is read first; with nothing due, that is all, except that a first version is recorded. */
  lemma ApplyStarts(st: Status, w: World, replicas: nat, order: seq<string>, fates: nat -> Fate)
    ensures var done := Apply(st, w, replicas, order, fates);
      && |done.w.log| > |w.log| && done.w.log[|w.log|].call == ReadNamespaceSecret
      && (!Due(st, w) || !fates(|w.log|).Acked? ==>
            && Logged(w, done.w, [ReadNamespaceSecret], fates) && done.failed == !fates(|w.log|).Acked?
            && done.st == (if st.version == "" && !done.failed then st.(version := w.version) else st))
  {
    var u := DoLogs(w, ReadNamespaceSecret, fates);
    var done := Apply(st, w, replicas, order, fates);
    if Due(st, w) && fates(|w.log|).Acked? {
      PodsEnd(st, u, 0, replicas, fates);
      var pods := VisitPods(st, u, 0, replicas, fates);
      var writes := WritesEnd(pods.st, pods.w, order, fates);
      assert u.log <= done.w.log;
    }
  }

  /**
   When a version is due and ApplyIdxcSecret reports success, the secret of every indexer was there, has
   been read and compared, and the indexer re-keyed if it had to be.
   */
  lemma SuccessCompared(st: Status, w: World, replicas: nat, order: seq<string>, fates: nat -> Fate, m: nat)
    requires Due(st, w) && !Apply(st, w, replicas, order, fates).failed && m < replicas
    ensures Compared(st, w, Apply(st, w, replicas, order, fates).w, m)
  {
    var u := DoLogs(w, ReadNamespaceSecret, fates);
    var pods := VisitPods(st, u, 0, replicas, fates);
    PodsCompared(st, u, replicas, fates, m);
    PodsEnd(st, u, 0, replicas, fates);
    var writes := WritesEnd(pods.st, pods.w, order, fates);
    StillThrough(u.log, pods.w.log, writes.w.log, |w.log|);
  }

  lemma StillThrough(u: seq<Entry>, a: seq<Entry>, b: seq<Entry>, at: nat)
    requires a <= b && at <= |u|
    ensures forall call :: WentThrough(a, |u|, call) ==> WentThrough(b, at, call)
  {
    forall call | WentThrough(a, |u|, call) ensures WentThrough(b, at, call) {
      var k :| |u| <= k < |a| && a[k].call == call && a[k].fate.Acked?;
      assert b[k] == a[k];
    }
  }

  /** An indexer whose secret is not there ends the pass with an error. */
  lemma UnreadableFails(st: Status, w: World, replicas: nat, order: seq<string>, fates: nat -> Fate, m: nat)
    requires Due(st, w) && m < replicas && !Readable(w, m)
    ensures Apply(st, w, replicas, order, fates).failed
  {
    if !Apply(st, w, replicas, order, fates).failed {
      SuccessCompared(st, w, replicas, order, fates, m);
    }
  }

  /** A recorded version gives way to another only at a Ready that compared the secret of every indexer. */
  lemma VersionMovesCompared(s: Cr, r: Round, replicas: nat, m: nat)
    requires s.st.version != "" && Play(s, r, replicas).st.version != s.st.version && m < replicas
    ensures r.Reconcile? && r.info.Known? && r.podsReady && Play(s, r, replicas).st.version == s.w.version
    ensures Compared(s.st, s.w, Play(s, r, replicas).w, m)
  {
    var applied := Apply(s.st, s.w, replicas, r.order, r.fates);
    ApplyKeepsVersion(s.st, s.w, replicas, r.order, r.fates);
    SuccessCompared(s.st, s.w, replicas, r.order, r.fates, m);
    StillThrough(s.w.log, applied.w.log, Play(s, r, replicas).w.log, |s.w.log|);
  }

  lemma ApplyKeepsVersion(st: Status, w: World, replicas: nat, order: seq<string>, fates: nat -> Fate)
    requires st.version != ""
    ensures var done := Apply(st, w, replicas, order, fates);
      done.st.version == st.version && done.w.version == w.version
  {
    var u := DoLogs(w, ReadNamespaceSecret, fates);
    var pods := VisitPods(st, u, 0, replicas, fates);
    PodsEnd(st, u, 0, replicas, fates);
    PodsKeepVersion(st, u, 0, replicas, fates);
    var writes := WritesEnd(pods.st, pods.w, order, fates);
    WritesKeepWorld(pods.st, pods.w, order, fates);
  }

  lemma {:induction false} PodsKeepVersion(st: Status, w: World, i: nat, replicas: nat, fates: nat -> Fate)
    ensures VisitPods(st, w, i, replicas, fates).st.version == st.version
    decreases replicas - i
  {
    if i < replicas {
      VisitLeaves(st, w, i, fates);
      var one := VisitPod(st, w, i, fates);
      if !one.failed {
        PodsKeepVersion(one.st, one.w, i + 1, replicas, fates);
      }
    }
  }

  lemma {:induction false} WritesKeepWorld(st: Status, w: World, order: seq<string>, fates: nat -> Fate)
    ensures WriteSecrets(st, w, order, fates).w.version == w.version
    decreases |order|
  {
    if order != [] {
      var one := WriteEffect(st, w, order[0], fates);
      if !one.failed {
        WritesKeepWorld(one.st, one.w, order[1..], fates);
      }
    }
  }

  /**
   Over any run: whenever a recorded version has given way to another, there was a Ready that compared the
   secret of every indexer with the namespace secret of the new version.
   */
  lemma {:induction false} NoVersionUncompared(s: Cr, rounds: seq<Round>, replicas: nat, m: nat) returns (k: nat)
    requires s.st.version != "" && Rounds(s, rounds, replicas).st.version != s.st.version && m < replicas
    ensures k < |rounds| && rounds[k].Reconcile? && rounds[k].podsReady
    ensures var before, after := Rounds(s, rounds[..k], replicas), Rounds(s, rounds[..k + 1], replicas);
      && after.st.version == before.w.version && after.st.version != before.st.version
      && Compared(before.st, before.w, after.w, m)
    decreases |rounds|
  {
    var last := |rounds| - 1;
    var before := Rounds(s, rounds[..last], replicas);
    if before.st.version == s.st.version {
      k := last;
      assert rounds[..last + 1] == rounds;
      VersionMovesCompared(before, rounds[last], replicas, m);
    } else {
      k := NoVersionUncompared(s, rounds[..last], replicas, m);
      assert rounds[..last][..k] == rounds[..k] && rounds[..last][..k + 1] == rounds[..k + 1];
    }
  }

  /** A restart that went through, of an indexer that mounts `name`. */
  ghost predicate RestartedOn(w: World, log: seq<Entry>, at: nat, name: string) {
    exists k :: at <= k < |log| && RestartOf(w, log[k], name)
  }

  predicate RestartOf(w: World, e: Entry, name: string) {
    e.call.Restart? && e.fate.Acked? && e.call.i < |w.mounted| && w.mounted[e.call.i] == name
  }

  ghost predicate EnabledSince(log: seq<Entry>, at: nat) {
    exists k :: at <= k < |log| && log[k].call.EnableMaintenance? && log[k].fate.Acked?
  }

  /** What the status says of the mode, and of the secrets to be written, follows the calls that went through. */
  ghost predicate Marks(st: Status, w: World, one: Pass) {
    && w.log <= one.w.log && one.w.mounted == w.mounted
    && (one.st.maintenance <==> st.maintenance || EnabledSince(one.w.log, |w.log|))
    && forall name :: Recorded(one.st, name) <==> Recorded(st, name) || RestartedOn(w, one.w.log, |w.log|, name)
  }

  predicate Recorded(st: Status, name: string) {
    name in st.passwords && st.passwords[name]
  }

  lemma MarksJoin(st: Status, w: World, one: Pass, two: Pass)
    requires Marks(st, w, one) && Marks(one.st, one.w, two)
    ensures Marks(st, w, two)
  {
    var a, b := one.w.log, two.w.log;
    if EnabledSince(a, |w.log|) {
      var k :| |w.log| <= k < |a| && a[k].call.EnableMaintenance? && a[k].fate.Acked?;
      assert b[k] == a[k];
    }
    if EnabledSince(b, |w.log|) {
      var k :| |w.log| <= k < |b| && b[k].call.EnableMaintenance? && b[k].fate.Acked?;
      assert k < |a| ==> b[k] == a[k];
    }
    forall name
      ensures RestartedOn(w, b, |w.log|, name)
        <==> RestartedOn(w, a, |w.log|, name) || RestartedOn(w, b, |a|, name)
    {
      if RestartedOn(w, a, |w.log|, name) {
        var k :| |w.log| <= k < |a| && RestartOf(w, a[k], name);
        assert b[k] == a[k];
      }
      if RestartedOn(w, b, |w.log|, name) {
        var k :| |w.log| <= k < |b| && RestartOf(w, b[k], name);
        assert k < |a| ==> b[k] == a[k];
      }
    }
    forall name ensures RestartedOn(one.w, b, |a|, name) <==> RestartedOn(w, b, |a|, name) {
      if k :| |a| <= k < |b| && RestartOf(one.w, b[k], name) {
        assert RestartOf(w, b[k], name);
      }
      if k :| |a| <= k < |b| && RestartOf(w, b[k], name) {
        assert RestartOf(one.w, b[k], name);
      }
    }
  }

  /** A call that went through is marked, or leaves no mark. */
  lemma CallMarks(st: Status, w: World, call: Call, fates: nat -> Fate, st1: Status)
    requires st1.maintenance == (st.maintenance || (call.EnableMaintenance? && fates(|w.log|).Acked?))
    requires st1.passwords ==
      if call.Restart? && fates(|w.log|).Acked? && call.i < |w.mounted| then st.passwords[w.mounted[call.i] := true]
      else st.passwords
    requires !call.DisableMaintenance?
    ensures Marks(st, w, Pass(st1, Do(w, call, fates(|w.log|)), false))
    ensures Marks(st, w, Pass(st1, Do(w, call, fates(|w.log|)), true))
  {
    var u := Do(w, call, fates(|w.log|));
    assert u.log[|w.log|] == Entry(call, fates(|w.log|), w.maintenance);
    forall name ensures RestartedOn(w, u.log, |w.log|, name) <==> RestartOf(w, u.log[|w.log|], name) {
    }
  }

  lemma RekeyMarks(st: Status, w: World, i: nat, fates: nat -> Fate)
    requires i < |w.mounted|
    ensures Marks(st, w, RekeyPod(st, w, i, fates))
  {
    var all := RekeyPod(st, w, i, fates);
    var one := Pass(st, Do(w, SetKey(i), fates(|w.log|)), false);
    CallMarks(st, w, SetKey(i), fates, st);
    if fates(|w.log|).Acked? {
      CallMarks(st, one.w, Restart(i), fates, all.st);
      MarksJoin(st, w, one, all);
    }
  }

  lemma VisitMarks(st: Status, w: World, i: nat, fates: nat -> Fate)
    ensures Marks(st, w, VisitPod(st, w, i, fates))
  {
    var one := Pass(st, Do(w, ReadPodSecret(i), fates(|w.log|)), false);
    CallMarks(st, w, ReadPodSecret(i), fates, st);
    if Differs(w, i) && fates(|w.log|).Acked? {
      var entered := EnterMaintenance(st, one.w, fates);
      EnterMarks(st, one.w, fates);
      MarksJoin(st, w, one, entered);
      if !entered.failed && !Flagged(entered.st, i) {
        RekeyMarks(entered.st, entered.w, i, fates);
        MarksJoin(st, w, entered, VisitPod(st, w, i, fates));
      }
    }
  }

  lemma EnterMarks(st: Status, w: World, fates: nat -> Fate)
    ensures Marks(st, w, EnterMaintenance(st, w, fates))
  {
    if st.changed == [] && !st.maintenance {
      CallMarks(st, w, EnableMaintenance, fates, EnterMaintenance(st, w, fates).st);
    }
  }

  /** A pass over the indexers records exactly the secrets of those it restarted, and the mode if it entered it. */
  lemma {:induction false} PodsMark(st: Status, w: World, i: nat, replicas: nat, fates: nat -> Fate)
    ensures Marks(st, w, VisitPods(st, w, i, replicas, fates))
    decreases replicas - i
  {
    if i < replicas {
      var one := VisitPod(st, w, i, fates);
      VisitMarks(st, w, i, fates);
      if !one.failed {
        PodsMark(one.st, one.w, i + 1, replicas, fates);
        MarksJoin(st, w, one, VisitPods(st, w, i, replicas, fates));
      }
    }
  }

  /** The end of Ready: flags call for the mode to be left, and are forgotten only if that went through. */
  lemma ReadyEnds(st: Status, w: World, fates: nat -> Fate)
    ensures var done := ReadyBranch(st, w, fates);
      && Logged(w, done.w, if st.changed == [] then [] else [DisableMaintenance], fates)
      && (done.failed <==> st.changed != [] && !fates(|w.log|).Acked?)
      && (done.failed ==> done.st == st)
      && (!done.failed ==>
            && done.st.changed == [] && done.st.passwords == map[] && done.st.version == w.version
            && (done.st.maintenance <==> st.maintenance && |done.w.log| == |w.log|))
  {
    NothingMade(st, w, fates);
    var u := DoLogs(w, DisableMaintenance, fates);
  }
}
