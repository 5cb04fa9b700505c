/**
 Re-keying over whole runs: any number of reconciles, each failing wherever it may, with indexers that
 have been re-keyed being recreated in between.
 */
module RekeyRuns {
  import opened Rekey
  import opened Wrappers

  predicate AllTrue(changed: seq<bool>) {
    forall i :: 0 <= i < |changed| ==> changed[i]
  }

  /** Nothing but the history and maintenance mode differs. */
  predicate SameKeys(w: World, u: World) {
    w.version == u.version && w.key == u.key && w.mounted == u.mounted && w.secrets == u.secrets
  }

  /** One visit left the flags alone, or re-keyed pod `i` and added a flag. */
  predicate Kept(st: Status, w: World, one: Pass) {
    one.st.changed == st.changed && one.w.restarted == w.restarted
  }

  predicate Rekeyed(st: Status, w: World, i: nat, one: Pass) {
    one.st.changed == st.changed + [true] && one.w.restarted == w.restarted + multiset{i} && !one.failed
  }

  lemma RekeyEffect(st: Status, w: World, i: nat, fates: nat -> Fate)
    requires i < |w.mounted| && i >= |st.changed|
    ensures var one := RekeyPod(st, w, i, fates);
      && one.st.version == st.version && SameKeys(w, one.w)
      && (Rekeyed(st, w, i, one) || (Kept(st, w, one) && one.failed))
  {
  }

  lemma EnterEffect(st: Status, w: World, fates: nat -> Fate)
    ensures var one := EnterMaintenance(st, w, fates);
      one.st.version == st.version && SameKeys(w, one.w) && Kept(st, w, one)
  {
  }

  lemma VisitEffect(st: Status, w: World, i: nat, fates: nat -> Fate)
    requires AllTrue(st.changed)
    ensures var one := VisitPod(st, w, i, fates);
      && one.st.version == st.version && SameKeys(w, one.w)
      && if Stale(w, i) && i >= |st.changed|
         then Rekeyed(st, w, i, one) || (Kept(st, w, one) && one.failed)
         else Kept(st, w, one)
  {
    var w1 := Do(w, ReadPodSecret(i), fates(|w.log|));
    if Readable(w, i) {
      EnterEffect(st, w1, fates);
      var entered := EnterMaintenance(st, w1, fates);
      if i >= |st.changed| {
        RekeyEffect(entered.st, entered.w, i, fates);
      }
    }
  }

  lemma VisitCounts(st: Status, w: World, i: nat, fates: nat -> Fate)
    requires AllTrue(st.changed)
    ensures var one := VisitPod(st, w, i, fates);
      && AllTrue(one.st.changed) && st.changed <= one.st.changed
      && |one.st.changed| - |st.changed| == |one.w.restarted| - |w.restarted|
      && w.restarted <= one.w.restarted
  {
    VisitEffect(st, w, i, fates);
  }

  /**
   The flags only ever count: a pass keeps them all true and adds one for each restart that the
   operator saw succeed, wherever the pass breaks off.
   */
  lemma {:induction false} FlagsCountRestarts(st: Status, w: World, i: nat, replicas: nat, fates: nat -> Fate)
    requires AllTrue(st.changed)
    ensures var pods := VisitPods(st, w, i, replicas, fates);
      && AllTrue(pods.st.changed) && st.changed <= pods.st.changed
      && |pods.st.changed| - |st.changed| == |pods.w.restarted| - |w.restarted|
      && w.restarted <= pods.w.restarted
    decreases replicas - i
  {
    if i < replicas {
      VisitCounts(st, w, i, fates);
      var one := VisitPod(st, w, i, fates);
      if !one.failed {
        FlagsCountRestarts(one.st, one.w, i + 1, replicas, fates);
      }
    }
  }

  /** Beyond the flags, exactly the indexers below `d` are stale. */
  ghost predicate StaleBelow(w: World, from: nat, replicas: nat, d: nat) {
    forall i :: from <= i < replicas ==> (Stale(w, i) <==> i < d)
  }

  /** Each of the first `k` indexers was restarted once, the others never. */
  ghost predicate RestartedOnce(restarted: multiset<nat>, k: nat) {
    forall i: nat :: restarted[i] == if i < k then 1 else 0
  }

  /** The re-key has reached exactly the flagged indexers. */
  ghost predicate Aligned(st: Status, w: World, replicas: nat, d: nat) {
    && d <= replicas
    && AllTrue(st.changed) && |st.changed| <= d
    && RestartedOnce(w.restarted, |st.changed|)
    && StaleBelow(w, |st.changed|, replicas, d)
  }

  lemma VisitKeepsAligned(st: Status, w: World, i: nat, replicas: nat, d: nat, fates: nat -> Fate)
    requires Aligned(st, w, replicas, d) && i < replicas
    requires i <= |st.changed| || |st.changed| == d
    ensures var one := VisitPod(st, w, i, fates);
      && Aligned(one.st, one.w, replicas, d)
      && one.st.version == st.version && one.w.version == w.version
      && (!one.failed ==> i < |one.st.changed| || |one.st.changed| == d)
  {
    VisitEffect(st, w, i, fates);
    var one := VisitPod(st, w, i, fates);
    assert forall j :: Stale(one.w, j) == Stale(w, j);
  }

  /** The pass from `i` on: every stale indexer before `i` has been dealt with. */
  lemma {:induction false} PodsStayAligned(st: Status, w: World, i: nat, replicas: nat, d: nat, fates: nat -> Fate)
    requires Aligned(st, w, replicas, d) && i <= replicas
    requires i <= |st.changed| || |st.changed| == d
    ensures var pods := VisitPods(st, w, i, replicas, fates);
      && Aligned(pods.st, pods.w, replicas, d)
      && pods.st.version == st.version && pods.w.version == w.version
      && (!pods.failed ==> |pods.st.changed| == d)
    decreases replicas - i
  {
    if i < replicas {
      VisitKeepsAligned(st, w, i, replicas, d, fates);
      var one := VisitPod(st, w, i, fates);
      if !one.failed {
        PodsStayAligned(one.st, one.w, i + 1, replicas, d, fates);
      }
    }
  }

  predicate AboutSecrets(call: Call) {
    call.ReadSecret? || call.ReadNamespaceSecret? || call.WriteSecret? || call.MakeSecret?
  }

  /** Only calls about secrets were made, and secrets changed to the new key only. */
  ghost predicate WritesOnly(w: World, u: World) {
    && u == w.(secrets := u.secrets, ymls := u.ymls, log := u.log)
    && w.log <= u.log && (forall k :: |w.log| <= k < |u.log| ==> AboutSecrets(u.log[k].call))
    && (forall name <- u.secrets ::
          u.secrets[name] == w.key || (name in w.secrets && u.secrets[name] == w.secrets[name]))
  }

  lemma CallWrites(w0: World, w: World, call: Call, fate: Fate) returns (u: World)
    requires WritesOnly(w0, w) && AboutSecrets(call)
    ensures u == Do(w, call, fate) && WritesOnly(w0, u)
  {
    u := Do(w, call, fate);
  }

  lemma WriteEffect(st: Status, w: World, name: string, fates: nat -> Fate) returns (one: Pass)
    ensures one == WriteOne(st, w, name, fates) && WritesOnly(w, one.w)
    ensures one.st == st.(passwords := one.st.passwords)
  {
    one := WriteOne(st, w, name, fates);
    var w1 := CallWrites(w, w, ReadSecret(name), fates(|w.log|));
    var w2 := CallWrites(w, w1, ReadNamespaceSecret, fates(|w1.log|));
    var w3 := CallWrites(w, w2, ReadSecret(name), fates(|w2.log|));
    var w4 := CallWrites(w, w3, WriteSecret(name), fates(|w3.log|));
    var w5 := CallWrites(w, w3, MakeSecret(name), fates(|w3.log|));
  }

  lemma WritesKeepCurrent(w: World, u: World)
    requires WritesOnly(w, u)
    ensures forall i: nat :: Stale(u, i) ==> Stale(w, i)
  {
    forall i: nat | Stale(u, i) ensures Stale(w, i) {
      assert u.mounted[i] in u.secrets;
    }
  }

  lemma {:induction false} WritesKeepAligned(st: Status, w: World, order: seq<string>, replicas: nat, d: nat,
                                             fates: nat -> Fate)
    requires Aligned(st, w, replicas, d) && |st.changed| == d
    ensures var done := WriteSecrets(st, w, order, fates);
      && Aligned(done.st, done.w, replicas, d) && done.st.changed == st.changed
      && done.st.version == st.version && done.w.version == w.version
    decreases |order|
  {
    if order != [] {
      var one := WriteEffect(st, w, order[0], fates);
      WritesKeepCurrent(w, one.w);
      if !one.failed {
        WritesKeepAligned(one.st, one.w, order[1..], replicas, d, fates);
      }
    }
  }

  lemma ApplyKeepsAligned(st: Status, w: World, replicas: nat, d: nat, order: seq<string>, fates: nat -> Fate)
    requires Aligned(st, w, replicas, d) && st.version != "" && st.version != w.version
    ensures var done := Apply(st, w, replicas, order, fates);
      && Aligned(done.st, done.w, replicas, d)
      && done.st.version == st.version && done.w.version == w.version
      && (!done.failed ==> |done.st.changed| == d)
  {
    var w1 := Do(w, ReadNamespaceSecret, fates(|w.log|));
    assert forall j :: Stale(w1, j) == Stale(w, j);
    PodsStayAligned(st, w1, 0, replicas, d, fates);
    var pods := VisitPods(st, w1, 0, replicas, fates);
    if !pods.failed {
      WritesKeepAligned(pods.st, pods.w, order, replicas, d, fates);
    }
  }

  /** What the cluster master said to updateStatus. */
  datatype Info = NotReady | Unreadable | Known

  /**
   A round is one reconcile of the indexer cluster (the fates of its calls, the order in which it walks
   the recorded secrets, what updateStatus learns, and whether the pods then prove Ready), or a step
   of the environment: an indexer recreated on another secret, or a secret created with the new key.
   */
  datatype Round =
    | Reconcile(order: seq<string>, fates: nat -> Fate, info: Info, podsReady: bool)
    | Remount(i: nat, secret: string)
    | CreateSecret(name: string)

  datatype Cr = Cr(st: Status, w: World)

  /** updateStatus overwrites the maintenance flag with what the cluster master reports. */
  function Refresh(st: Status, w: World, info: Info): Status {
    match info
    case NotReady => st.(maintenance := false)
    case Unreadable => st
    case Known => st.(maintenance := w.maintenance)
  }

  function ReconcileRound(s: Cr, r: Round, replicas: nat): Cr
    requires r.Reconcile?
  {
    var applied := Apply(s.st, s.w, replicas, r.order, r.fates);
    if applied.failed then Cr(applied.st, applied.w)
    else
      var st := Refresh(applied.st, applied.w, r.info);
      if !r.info.Known? || !r.podsReady then Cr(st, applied.w)
      else var ready := ReadyBranch(st, applied.w, r.fates); Cr(ready.st, ready.w)
  }

  function Play(s: Cr, r: Round, replicas: nat): Cr {
    match r
    case Reconcile(_, _, _, _) => ReconcileRound(s, r, replicas)
    case Remount(i, secret) =>
      if i < |s.w.mounted| then s.(w := s.w.(mounted := s.w.mounted[i := secret])) else s
    case CreateSecret(name) =>
      if name in s.w.secrets then s else s.(w := Filled(s.w, name))
  }

  function Rounds(s: Cr, rounds: seq<Round>, replicas: nat): Cr {
    if rounds == [] then s
    else Play(Rounds(s, rounds[..|rounds| - 1], replicas), rounds[|rounds| - 1], replicas)
  }

  /** Until the change is over, only indexers already re-keyed are recreated. */
  predicate Expected(s: Cr, r: Round) {
    r.Remount? ==> r.i < |s.st.changed| || s.st.version == s.w.version
  }

  ghost predicate AllExpected(s: Cr, rounds: seq<Round>, replicas: nat) {
    forall k :: 0 <= k < |rounds| ==> Expected(Rounds(s, rounds[..k], replicas), rounds[k])
  }

  /** Under way with the first flags set, or over with each stale indexer restarted exactly once. */
  ghost predicate OnTrack(s: Cr, replicas: nat, d: nat) {
    && s.st.version != "" && s.w.version != ""
    && if s.st.version == s.w.version then RestartedOnce(s.w.restarted, d)
       else Aligned(s.st, s.w, replicas, d)
  }

  lemma ReconcileKeepsTrack(s: Cr, r: Round, replicas: nat, d: nat)
    requires OnTrack(s, replicas, d) && r.Reconcile?
    ensures OnTrack(ReconcileRound(s, r, replicas), replicas, d)
  {
    var applied := Apply(s.st, s.w, replicas, r.order, r.fates);
    if s.st.version != s.w.version {
      ApplyKeepsAligned(s.st, s.w, replicas, d, r.order, r.fates);
      var st := Refresh(applied.st, applied.w, r.info);
      assert Aligned(st, applied.w, replicas, d) ==> Aligned(applied.st, applied.w, replicas, d);
      if !applied.failed && r.info.Known? && r.podsReady {
        var ready := ReadyBranch(st, applied.w, r.fates);
        assert forall i :: Stale(ready.w, i) == Stale(applied.w, i);
      }
    }
  }

  lemma PlayKeepsTrack(s: Cr, r: Round, replicas: nat, d: nat)
    requires OnTrack(s, replicas, d) && Expected(s, r)
    ensures OnTrack(Play(s, r, replicas), replicas, d)
  {
    match r
    case Reconcile(_, _, _, _) => ReconcileKeepsTrack(s, r, replicas, d);
    case Remount(i, secret) =>
      assert forall j :: j >= |s.st.changed| && s.st.version != s.w.version ==>
          Stale(Play(s, r, replicas).w, j) == Stale(s.w, j);
    case CreateSecret(name) =>
      assert forall j :: Stale(Play(s, r, replicas).w, j) == Stale(s.w, j);
  }

  /** A change of the namespace secret that has just been made, with exactly the first `d` indexers on an old key. */
  ghost predicate JustChanged(s: Cr, replicas: nat, d: nat) {
    && s.st.changed == [] && s.st.passwords == map[] && s.st.version != "" && s.w.version != ""
    && s.st.version != s.w.version
    && s.w.restarted == multiset{} && s.w.log == []
    && d <= replicas && StaleBelow(s.w, 0, replicas, d)
  }

  lemma {:induction false} RoundsKeepTrack(s: Cr, rounds: seq<Round>, replicas: nat, d: nat)
    requires JustChanged(s, replicas, d) && AllExpected(s, rounds, replicas)
    ensures OnTrack(Rounds(s, rounds, replicas), replicas, d)
    decreases |rounds|
  {
    if rounds != [] {
      var k := |rounds| - 1;
      forall j | 0 <= j < k ensures Expected(Rounds(s, rounds[..k][..j], replicas), rounds[..k][j]) {
        assert rounds[..k][..j] == rounds[..j];
      }
      RoundsKeepTrack(s, rounds[..k], replicas, d);
      PlayKeepsTrack(Rounds(s, rounds[..k], replicas), rounds[k], replicas, d);
    }
  }

  /**
   Across any number of reconciles, failing wherever they may, no indexer is seen to restart twice,
   only stale ones are restarted, and the flags are all true and count the ones done so far.
   */
  lemma {:induction false} NoIndexerTwice(s: Cr, rounds: seq<Round>, replicas: nat, d: nat, i: nat)
    requires JustChanged(s, replicas, d) && AllExpected(s, rounds, replicas)
    ensures var t := Rounds(s, rounds, replicas);
      && t.w.restarted[i] <= (if i < d then 1 else 0)
      && (t.st.version != t.w.version ==>
            && AllTrue(t.st.changed) && |t.st.changed| <= d
            && t.w.restarted[i] == if i < |t.st.changed| then 1 else 0)
  {
    RoundsKeepTrack(s, rounds, replicas, d);
  }

  /** When ApplyIdxcSecret reports success, no stale indexer has been skipped. */
  lemma NoIndexerSkipped(s: Cr, rounds: seq<Round>, replicas: nat, d: nat, order: seq<string>,
                         fates: nat -> Fate, i: nat)
    requires JustChanged(s, replicas, d) && AllExpected(s, rounds, replicas)
    requires var t := Rounds(s, rounds, replicas); !Apply(t.st, t.w, replicas, order, fates).failed
    requires i < d
    ensures var t := Rounds(s, rounds, replicas); Apply(t.st, t.w, replicas, order, fates).w.restarted[i] == 1
  {
    RoundsKeepTrack(s, rounds, replicas, d);
    var t := Rounds(s, rounds, replicas);
    if t.st.version != t.w.version {
      ApplyKeepsAligned(t.st, t.w, replicas, d, order, fates);
    }
  }
}
