/**
 How far the re-keying guarantees reach: the maintenance bracket, and the exact condition under which
 no indexer can be restarted twice.
 */
module RekeyLimits {
  import opened Rekey
  import opened Wrappers
  import opened RekeyRuns

  /** Maintenance mode is on whenever the status says so or a flag is set, and was on at every re-key. */
  ghost predicate Bracketed(s: Cr) {
    && (s.st.maintenance ==> s.w.maintenance)
    && (s.st.changed != [] ==> s.w.maintenance)
    && KeyedInMaintenance(s.w.log)
  }

  ghost predicate KeyedInMaintenance(log: seq<Entry>) {
    forall k :: 0 <= k < |log| && log[k].call.SetKey? ==> log[k].inMaintenance
  }

  lemma VisitKeepsBracket(st: Status, w: World, i: nat, fates: nat -> Fate)
    requires Bracketed(Cr(st, w))
    ensures var one := VisitPod(st, w, i, fates); Bracketed(Cr(one.st, one.w))
  {
    var w1 := Do(w, ReadPodSecret(i), fates(|w.log|));
    assert Bracketed(Cr(st, w1));
    if Readable(w, i) {
      var entered := EnterMaintenance(st, w1, fates);
      assert Bracketed(Cr(entered.st, entered.w));
      if !entered.failed {
        assert entered.w.maintenance;
        RekeyKeepsBracket(entered.st, entered.w, i, fates);
      }
    }
  }

  lemma RekeyKeepsBracket(st: Status, w: World, i: nat, fates: nat -> Fate)
    requires Bracketed(Cr(st, w)) && w.maintenance && i < |w.mounted|
    ensures var one := RekeyPod(st, w, i, fates); Bracketed(Cr(one.st, one.w))
  {
  }

  lemma {:induction false} PodsKeepBracket(st: Status, w: World, i: nat, replicas: nat, fates: nat -> Fate)
    requires Bracketed(Cr(st, w))
    ensures var pods := VisitPods(st, w, i, replicas, fates); Bracketed(Cr(pods.st, pods.w))
    decreases replicas - i
  {
    if i < replicas {
      VisitKeepsBracket(st, w, i, fates);
      var one := VisitPod(st, w, i, fates);
      if !one.failed {
        PodsKeepBracket(one.st, one.w, i + 1, replicas, fates);
      }
    }
  }

  lemma {:induction false} WritesKeepBracket(st: Status, w: World, order: seq<string>, fates: nat -> Fate)
    requires Bracketed(Cr(st, w))
    ensures var done := WriteSecrets(st, w, order, fates);
      Bracketed(Cr(done.st, done.w)) && done.st.changed == st.changed
    decreases |order|
  {
    if order != [] {
      var one := WriteEffect(st, w, order[0], fates);
      if !one.failed {
        WritesKeepBracket(one.st, one.w, order[1..], fates);
      }
    }
  }

  lemma ApplyKeepsBracket(s: Cr, replicas: nat, order: seq<string>, fates: nat -> Fate)
    requires Bracketed(s)
    ensures var done := Apply(s.st, s.w, replicas, order, fates); Bracketed(Cr(done.st, done.w))
  {
    var w1 := Do(s.w, ReadNamespaceSecret, fates(|s.w.log|));
    assert Bracketed(Cr(s.st, w1));
    PodsKeepBracket(s.st, w1, 0, replicas, fates);
    var pods := VisitPods(s.st, w1, 0, replicas, fates);
    WritesKeepBracket(pods.st, pods.w, order, fates);
  }

  /** The round gets as far as leaving maintenance mode, and that call takes effect unseen. */
  predicate LosesDisable(s: Cr, r: Round, replicas: nat) {
    r.Reconcile? &&
    var applied := Apply(s.st, s.w, replicas, r.order, r.fates);
    && !applied.failed && r.info.Known? && r.podsReady
    && applied.st.changed != [] && r.fates(|applied.w.log|).Lost?
  }

  /** A round keeps the bracket exactly when the call that leaves maintenance mode is not lost. */
  lemma BracketKept(s: Cr, r: Round, replicas: nat)
    requires Bracketed(s)
    ensures Bracketed(Play(s, r, replicas)) <==> !LosesDisable(s, r, replicas)
  {
    if r.Reconcile? {
      ApplyKeepsBracket(s, replicas, r.order, r.fates);
      var applied := Apply(s.st, s.w, replicas, r.order, r.fates);
      assert Bracketed(Cr(Refresh(applied.st, applied.w, r.info), applied.w));
    }
  }

  /** Over a whole run: every re-key happens in maintenance mode, which stays on while a flag is set. */
  lemma {:induction false} BracketHolds(s: Cr, rounds: seq<Round>, replicas: nat)
    requires Bracketed(s)
    requires forall k :: 0 <= k < |rounds| ==> !LosesDisable(Rounds(s, rounds[..k], replicas), rounds[k], replicas)
    ensures Bracketed(Rounds(s, rounds, replicas))
    decreases |rounds|
  {
    if rounds != [] {
      var k := |rounds| - 1;
      forall j | 0 <= j < k ensures !LosesDisable(Rounds(s, rounds[..k][..j], replicas), rounds[..k][j], replicas) {
        assert rounds[..k][..j] == rounds[..j];
      }
      BracketHolds(s, rounds[..k], replicas);
      BracketKept(Rounds(s, rounds[..k], replicas), rounds[k], replicas);
    }
  }

  lemma {:induction false} PodsKeepFlags(st: Status, w: World, i: nat, replicas: nat, fates: nat -> Fate)
    ensures st.changed != [] ==> VisitPods(st, w, i, replicas, fates).st.changed != []
    decreases replicas - i
  {
    if i < replicas {
      var one := VisitPod(st, w, i, fates);
      if !one.failed {
        PodsKeepFlags(one.st, one.w, i + 1, replicas, fates);
      }
    }
  }

  lemma {:induction false} WritesKeepFlags(st: Status, w: World, order: seq<string>, fates: nat -> Fate)
    ensures WriteSecrets(st, w, order, fates).st.changed == st.changed
    decreases |order|
  {
    if order != [] {
      var one := WriteOne(st, w, order[0], fates);
      if !one.failed {
        WritesKeepFlags(one.st, one.w, order[1..], fates);
      }
    }
  }

  lemma ApplyKeepsFlags(s: Cr, replicas: nat, order: seq<string>, fates: nat -> Fate)
    requires s.st.changed != []
    ensures Apply(s.st, s.w, replicas, order, fates).st.changed != []
  {
    var w1 := Do(s.w, ReadNamespaceSecret, fates(|s.w.log|));
    PodsKeepFlags(s.st, w1, 0, replicas, fates);
    var pods := VisitPods(s.st, w1, 0, replicas, fates);
    WritesKeepFlags(pods.st, pods.w, order, fates);
  }

  /** The flags are forgotten only by a round whose last call left maintenance mode and was acknowledged. */
  lemma FlagsClearedAfterDisable(s: Cr, r: Round, replicas: nat)
    requires s.st.changed != [] && Play(s, r, replicas).st.changed == []
    ensures var log := Play(s, r, replicas).w.log;
      log != [] && log[|log| - 1].call == DisableMaintenance && log[|log| - 1].fate.Acked?
    ensures !Play(s, r, replicas).w.maintenance
  {
    ApplyKeepsFlags(s, replicas, r.order, r.fates);
  }

  // The rest shows that "the stale indexers come first" is exactly what rules out a second restart.

  /** The indexers on an old key are the first ones. */
  ghost predicate StaleFirst(w: World, replicas: nat) {
    forall i, j :: 0 <= i < j < replicas && Stale(w, j) ==> Stale(w, i)
  }

  function CountStale(w: World, n: nat): (c: nat)
    ensures c <= n
  {
    if n == 0 then 0 else CountStale(w, n - 1) + if Stale(w, n - 1) then 1 else 0
  }

  lemma {:induction false} StaleFirstIsBelow(w: World, replicas: nat)
    requires StaleFirst(w, replicas)
    ensures StaleBelow(w, 0, replicas, CountStale(w, replicas))
  {
    if replicas > 0 {
      StaleFirstIsBelow(w, replicas - 1);
      var c := CountStale(w, replicas - 1);
      if c < replicas - 1 {
        assert !Stale(w, c);
      }
    }
  }

  /** A gap in the stale indexers leaves one whose ordinal is past their number. */
  lemma {:induction false} GapLeavesOne(w: World, replicas: nat, i: nat, j: nat) returns (m: nat)
    requires i < j < replicas && !Stale(w, i) && Stale(w, j)
    ensures CountStale(w, replicas) <= m < replicas && Stale(w, m)
    ensures forall k :: CountStale(w, replicas) <= k < m ==> !Stale(w, k)
  {
    var top := LastStale(w, replicas, j);
    CountToTop(w, replicas, top);
    GapBelow(w, top, i);
    m := CountStale(w, replicas);
    while !Stale(w, m)
      invariant CountStale(w, replicas) <= m <= top
      invariant forall k :: CountStale(w, replicas) <= k < m ==> !Stale(w, k)
      decreases top - m
    {
      m := m + 1;
    }
  }

  lemma {:induction false} LastStale(w: World, replicas: nat, j: nat) returns (top: nat)
    requires j < replicas && Stale(w, j)
    ensures j <= top < replicas && Stale(w, top)
    ensures forall k :: top < k < replicas ==> !Stale(w, k)
  {
    if Stale(w, replicas - 1) {
      top := replicas - 1;
    } else {
      top := LastStale(w, replicas - 1, j);
    }
  }

  lemma {:induction false} CountToTop(w: World, replicas: nat, top: nat)
    requires top < replicas && Stale(w, top) && forall k :: top < k < replicas ==> !Stale(w, k)
    ensures CountStale(w, replicas) == CountStale(w, top) + 1
  {
    if replicas > top + 1 {
      CountToTop(w, replicas - 1, top);
    }
  }

  lemma {:induction false} GapBelow(w: World, n: nat, i: nat)
    requires i < n && !Stale(w, i)
    ensures CountStale(w, n) + 1 <= n
  {
    if n > i + 1 {
      GapBelow(w, n - 1, i);
    }
  }

  ghost predicate AllReadable(w: World, replicas: nat) {
    forall i :: 0 <= i < replicas ==> Readable(w, i)
  }

  /** A visit that is not refused anything re-keys a stale pod that is not flagged. */
  lemma AckedVisit(st: Status, w: World, i: nat, fates: nat -> Fate)
    requires Readable(w, i) && AllTrue(st.changed) && forall k :: fates(k).Acked?
    ensures var one := VisitPod(st, w, i, fates);
      && !one.failed && SameKeys(w, one.w) && one.st.version == st.version
      && |w.log| < |one.w.log|
      && if Stale(w, i) && i >= |st.changed|
         then Rekeyed(st, w, i, one) && one.st.passwords == st.passwords[w.mounted[i] := true]
         else Kept(st, w, one) && one.st.passwords == st.passwords
  {
    VisitEffect(st, w, i, fates);
  }

  /** Every stale indexer below `i` has been restarted once and its secret recorded. */
  ghost predicate DoneBelow(st: Status, w: World, i: nat) {
    && AllTrue(st.changed) && |st.changed| == CountStale(w, i)
    && (forall j: nat :: w.restarted[j] == if j < i && Stale(w, j) then 1 else 0)
    && (forall name <- st.passwords :: st.passwords[name] && name in w.secrets)
    && (CountStale(w, i) > 0 ==> st.passwords != map[])
  }

  lemma DoneOneMore(st: Status, w: World, i: nat, fates: nat -> Fate) returns (one: Pass)
    requires Readable(w, i) && DoneBelow(st, w, i) && forall k :: fates(k).Acked?
    ensures one == VisitPod(st, w, i, fates)
    ensures !one.failed && SameKeys(w, one.w) && one.st.version == st.version && DoneBelow(one.st, one.w, i + 1)
  {
    AckedVisit(st, w, i, fates);
    one := VisitPod(st, w, i, fates);
    SameKeysSameStale(w, one.w, i);
    assert w.mounted[i] in one.st.passwords || !Stale(w, i);
  }

  /** From no flags at all, a pass that is refused nothing restarts each stale indexer once. */
  lemma {:induction false} FirstPass(st: Status, w: World, i: nat, replicas: nat, fates: nat -> Fate)
    requires AllReadable(w, replicas) && i <= replicas && forall k :: fates(k).Acked?
    requires DoneBelow(st, w, i)
    ensures var pods := VisitPods(st, w, i, replicas, fates);
      !pods.failed && SameKeys(w, pods.w) && pods.st.version == st.version && DoneBelow(pods.st, pods.w, replicas)
    decreases replicas - i
  {
    if i < replicas {
      var one := DoneOneMore(st, w, i, fates);
      SameKeysSameStale(w, one.w, 0);
      FirstPass(one.st, one.w, i + 1, replicas, fates);
    }
  }

  lemma {:induction false} SameKeysSameStale(w: World, u: World, n: nat)
    requires SameKeys(w, u)
    ensures CountStale(w, n) == CountStale(u, n)
    ensures forall j :: Stale(w, j) == Stale(u, j)
    ensures forall j :: Readable(w, j) == Readable(u, j)
  {
    if n > 0 {
      SameKeysSameStale(w, u, n - 1);
    }
  }

  /** Standing at pod `i` or before the first stale pod `m` past the flags. */
  ghost predicate Ahead(st: Status, w: World, i: nat, m: nat, replicas: nat) {
    && AllReadable(w, replicas) && AllTrue(st.changed)
    && |st.changed| <= m < replicas && Stale(w, m) && i <= m
    && forall k :: |st.changed| <= k < m ==> !Stale(w, k)
  }

  lemma StillAhead(st: Status, w: World, i: nat, m: nat, replicas: nat, fates: nat -> Fate)
    requires Ahead(st, w, i, m, replicas) && i < m && forall k :: fates(k).Acked?
    ensures var one := VisitPod(st, w, i, fates);
      !one.failed && Ahead(one.st, one.w, i + 1, m, replicas) && one.w.restarted == w.restarted
  {
    AckedVisit(st, w, i, fates);
    SameKeysSameStale(w, VisitPod(st, w, i, fates).w, 0);
  }

  lemma Reached(st: Status, w: World, m: nat, replicas: nat, fates: nat -> Fate)
    requires Ahead(st, w, m, m, replicas) && forall k :: fates(k).Acked?
    ensures var one := VisitPod(st, w, m, fates);
      !one.failed && AllTrue(one.st.changed) && one.w.restarted[m] == w.restarted[m] + 1
  {
    AckedVisit(st, w, m, fates);
  }

  /** A later pass restarts the first stale indexer past the flags, whoever was restarted before. */
  lemma {:induction false} SecondPass(st: Status, w: World, i: nat, m: nat, replicas: nat, fates: nat -> Fate)
    requires Ahead(st, w, i, m, replicas) && forall k :: fates(k).Acked?
    ensures VisitPods(st, w, i, replicas, fates).w.restarted[m] > w.restarted[m]
    decreases replicas - i
  {
    var one := VisitPod(st, w, i, fates);
    if i < m {
      StillAhead(st, w, i, m, replicas, fates);
      SecondPass(one.st, one.w, i + 1, m, replicas, fates);
    } else {
      Reached(st, w, m, replicas, fates);
      FlagsCountRestarts(one.st, one.w, i + 1, replicas, fates);
    }
  }

  lemma RekeyAgrees(st: Status, w: World, i: nat, f: nat -> Fate, g: nat -> Fate)
    requires i < |w.mounted|
    ensures |w.log| < |RekeyPod(st, w, i, f).w.log|
    ensures (forall k :: |w.log| <= k < |RekeyPod(st, w, i, f).w.log| ==> f(k) == g(k)) ==>
      RekeyPod(st, w, i, f) == RekeyPod(st, w, i, g)
  {
  }

  lemma EnterAgrees(st: Status, w: World, f: nat -> Fate, g: nat -> Fate)
    ensures |w.log| <= |EnterMaintenance(st, w, f).w.log|
    ensures (forall k :: |w.log| <= k < |EnterMaintenance(st, w, f).w.log| ==> f(k) == g(k)) ==>
      EnterMaintenance(st, w, f) == EnterMaintenance(st, w, g)
  {
  }

  lemma VisitLogGrows(st: Status, w: World, i: nat, f: nat -> Fate)
    ensures |w.log| < |VisitPod(st, w, i, f).w.log|
  {
    var w1 := Do(w, ReadPodSecret(i), f(|w.log|));
    EnterAgrees(st, w1, f, f);
    if Readable(w, i) {
      var entered := EnterMaintenance(st, w1, f);
      RekeyAgrees(entered.st, entered.w, i, f, f);
    }
  }

  lemma VisitAgrees(st: Status, w: World, i: nat, f: nat -> Fate, g: nat -> Fate)
    requires forall k :: |w.log| <= k < |VisitPod(st, w, i, f).w.log| ==> f(k) == g(k)
    ensures VisitPod(st, w, i, f) == VisitPod(st, w, i, g)
  {
    VisitLogGrows(st, w, i, f);
    var w1 := Do(w, ReadPodSecret(i), f(|w.log|));
    if Readable(w, i) {
      var entered := EnterMaintenance(st, w1, f);
      EnterAgrees(st, w1, f, g);
      RekeyAgrees(entered.st, entered.w, i, f, g);
    }
  }

  /** A pass depends only on the fates of the calls it makes. */
  lemma {:induction false} PodsAgree(st: Status, w: World, i: nat, replicas: nat, f: nat -> Fate, g: nat -> Fate)
    requires forall k :: |w.log| <= k < |VisitPods(st, w, i, replicas, f).w.log| ==> f(k) == g(k)
    ensures VisitPods(st, w, i, replicas, f) == VisitPods(st, w, i, replicas, g)
    decreases replicas - i
  {
    if i < replicas {
      var one := VisitPod(st, w, i, f);
      VisitLogGrows(st, w, i, f);
      if !one.failed {
        PodsLogGrows(one.st, one.w, i + 1, replicas, f);
      }
      VisitAgrees(st, w, i, f, g);
      if !one.failed {
        PodsAgree(one.st, one.w, i + 1, replicas, f, g);
      }
    }
  }

  lemma {:induction false} PodsLogGrows(st: Status, w: World, i: nat, replicas: nat, f: nat -> Fate)
    ensures |w.log| <= |VisitPods(st, w, i, replicas, f).w.log|
    decreases replicas - i
  {
    if i < replicas {
      VisitLogGrows(st, w, i, f);
      var one := VisitPod(st, w, i, f);
      if !one.failed {
        PodsLogGrows(one.st, one.w, i + 1, replicas, f);
      }
    }
  }

  lemma {:induction false} WritesKeepRestarts(st: Status, w: World, order: seq<string>, fates: nat -> Fate)
    ensures WriteSecrets(st, w, order, fates).w.restarted == w.restarted
    decreases |order|
  {
    if order != [] {
      var one := WriteEffect(st, w, order[0], fates);
      if !one.failed {
        WritesKeepRestarts(one.st, one.w, order[1..], fates);
      }
    }
  }

  lemma {:induction false} Enumerate(names: set<string>) returns (order: seq<string>)
    ensures forall name :: name in names <==> name in order
    decreases |names|
  {
    if names == {} {
      order := [];
    } else {
      var name :| name in names;
      var rest := Enumerate(names - {name});
      order := [name] + rest;
    }
  }

  /** The round walks every secret recorded by the time it writes them. */
  ghost predicate WalksAll(s: Cr, r: Round, replicas: nat) {
    r.Reconcile? && forall name <- Apply(s.st, s.w, replicas, [], r.fates).st.passwords :: name in r.order
  }

  ghost predicate AllWalk(s: Cr, rounds: seq<Round>, replicas: nat) {
    forall k :: 0 <= k < |rounds| ==> WalksAll(Rounds(s, rounds[..k], replicas), rounds[k], replicas)
  }

  /** However the reconciles fail, no indexer is seen to restart twice. */
  ghost predicate NeverTwice(s: Cr, replicas: nat) {
    forall rounds: seq<Round>, i: nat ::
      AllWalk(s, rounds, replicas) ==> Rounds(s, rounds, replicas).w.restarted[i] <= 1
  }

  /** A change of the namespace secret that has just been made; every pod's secret can be read. */
  ghost predicate Begun(s: Cr, replicas: nat) {
    && s.st.changed == [] && s.st.passwords == map[] && s.st.version != "" && s.w.version != ""
    && s.st.version != s.w.version
    && s.w.restarted == multiset{} && s.w.log == []
    && AllReadable(s.w, replicas)
  }

  function Until(n: nat): nat -> Fate {
    k => if k < n then Acked else Refused
  }

  function Always(): nat -> Fate {
    k => Acked
  }

  /** A first reconcile in which every stale indexer is restarted, and then the first secret cannot be written. */
  lemma FirstRound(s: Cr, replicas: nat) returns (r: Round)
    requires Begun(s, replicas) && CountStale(s.w, replicas) > 0
    ensures WalksAll(s, r, replicas)
    ensures var t := Play(s, r, replicas);
      && SameKeys(s.w, t.w) && t.st.version == s.st.version
      && AllTrue(t.st.changed) && |t.st.changed| == CountStale(s.w, replicas)
      && forall j: nat :: j < replicas && Stale(s.w, j) ==> t.w.restarted[j] == 1
  {
    var w1 := Do(s.w, ReadNamespaceSecret, Acked);
    SameKeysSameStale(s.w, w1, replicas);
    FirstPass(s.st, w1, 0, replicas, Always());
    var pods := VisitPods(s.st, w1, 0, replicas, Always());
    SameKeysSameStale(w1, pods.w, replicas);
    PodsLogGrows(s.st, w1, 0, replicas, Always());
    var n := |pods.w.log|;
    PodsAgree(s.st, w1, 0, replicas, Always(), Until(n));
    var order := Enumerate(pods.st.passwords.Keys);
    var name :| name in pods.st.passwords;
    assert order != [];
    r := Reconcile(order, Until(n), NotReady, false);
    var one := WriteOne(pods.st, pods.w, order[0], Until(n));
    assert one == Pass(pods.st, Do(pods.w, ReadSecret(order[0]), Refused), true);
  }

  /** A second reconcile that is refused nothing restarts indexer `m` once more. */
  lemma SecondRound(s: Cr, replicas: nat, m: nat) returns (r: Round)
    requires Ahead(s.st, s.w, 0, m, replicas) && s.st.version != "" && s.st.version != s.w.version
    ensures WalksAll(s, r, replicas)
    ensures Play(s, r, replicas).w.restarted[m] > s.w.restarted[m]
  {
    var w1 := Do(s.w, ReadNamespaceSecret, Acked);
    SameKeysSameStale(s.w, w1, 0);
    SecondPass(s.st, w1, 0, m, replicas, Always());
    var pods := VisitPods(s.st, w1, 0, replicas, Always());
    var order := Enumerate(pods.st.passwords.Keys);
    WritesKeepRestarts(pods.st, pods.w, order, Always());
    r := Reconcile(order, Always(), NotReady, false);
  }

  /** If a current indexer comes before a stale one, two reconciles can restart an indexer twice. */
  lemma {:induction false} GapRestartsTwice(s: Cr, replicas: nat, i: nat, j: nat) returns (rounds: seq<Round>, m: nat)
    requires Begun(s, replicas) && i < j < replicas && !Stale(s.w, i) && Stale(s.w, j)
    ensures AllWalk(s, rounds, replicas) && Rounds(s, rounds, replicas).w.restarted[m] > 1
  {
    m := GapLeavesOne(s.w, replicas, i, j);
    CountsOne(s.w, replicas, j);
    var r1 := FirstRound(s, replicas);
    var t := Play(s, r1, replicas);
    SameKeysSameStale(s.w, t.w, 0);
    var r2 := SecondRound(t, replicas, m);
    rounds := [r1, r2];
    assert rounds[..0] == [] && rounds[..1] == [r1] && [r1][..0] == [];
    assert Rounds(s, rounds[..0], replicas) == s;
    assert Rounds(s, rounds[..1], replicas) == t;
    assert Rounds(s, rounds, replicas) == Play(t, r2, replicas);
  }

  lemma {:induction false} CountsOne(w: World, n: nat, j: nat)
    requires j < n && Stale(w, j)
    ensures CountStale(w, n) > 0
  {
    if j < n - 1 {
      CountsOne(w, n - 1, j);
    }
  }

  /** No indexer can be restarted twice exactly when the stale indexers come before all current ones. */
  lemma NeverTwiceIffStaleFirst(s: Cr, replicas: nat)
    requires Begun(s, replicas)
    ensures NeverTwice(s, replicas) <==> StaleFirst(s.w, replicas)
  {
    if StaleFirst(s.w, replicas) {
      var d := CountStale(s.w, replicas);
      StaleFirstIsBelow(s.w, replicas);
      forall rounds: seq<Round>, i: nat | AllWalk(s, rounds, replicas)
        ensures Rounds(s, rounds, replicas).w.restarted[i] <= 1
      {
        NoIndexerTwice(s, rounds, replicas, d, i);
      }
    } else {
      var i, j :| 0 <= i < j < replicas && Stale(s.w, j) && !Stale(s.w, i);
      var rounds, m := GapRestartsTwice(s, replicas, i, j);
    }
  }
}
