/** How a re-key ends: when the Ready that ends it leaves maintenance mode off, and when it stays on for good. */
module RekeyEnd {
  import opened Rekey
  import opened Wrappers
  import opened RekeyRuns

  predicate SeenRestart(e: Entry) {
    e.call.Restart? && e.fate.Acked?
  }

  predicate Enabling(e: Entry) {
    e.call.EnableMaintenance? && !e.fate.Refused?
  }

  /** The operator has seen a restart succeed. */
  ghost predicate RestartSeen(log: seq<Entry>) {
    exists k :: 0 <= k < |log| && SeenRestart(log[k])
  }

  /** Maintenance mode has been enabled, seen or unseen. */
  ghost predicate Enabled(log: seq<Entry>) {
    exists k :: 0 <= k < |log| && Enabling(log[k])
  }

  /** There are flags once a restart was seen; until then the mode is on if it was enabled. */
  ghost predicate Tracks(st: Status, w: World) {
    && (st.changed != [] <==> RestartSeen(w.log))
    && (st.changed == [] ==> (w.maintenance <==> Enabled(w.log)))
  }

  lemma LogMore(log: seq<Entry>, e: Entry)
    ensures RestartSeen(log + [e]) <==> RestartSeen(log) || SeenRestart(e)
    ensures Enabled(log + [e]) <==> Enabled(log) || Enabling(e)
  {
    var more := log + [e];
    assert more[|log|] == e;
    assert forall k :: 0 <= k < |log| ==> more[k] == log[k];
  }

  /** A call other than a restart keeps track, unless it leaves maintenance mode without a flag. */
  lemma DoTracks(st: Status, w: World, call: Call, fate: Fate)
    requires Tracks(st, w) && !(call.Restart? && fate.Acked?) && (call.DisableMaintenance? ==> st.changed != [])
    ensures Tracks(st, Do(w, call, fate))
  {
    LogMore(w.log, Entry(call, fate, w.maintenance));
  }

  lemma RestartTracks(st: Status, w: World, i: nat, changed: seq<bool>)
    requires Tracks(st, w) && changed != []
    ensures Tracks(st.(changed := changed), Do(w, Restart(i), Acked))
  {
    LogMore(w.log, Entry(Restart(i), Acked, w.maintenance));
  }

  lemma RekeyTracks(st: Status, w: World, i: nat, fates: nat -> Fate)
    requires Tracks(st, w) && i < |w.mounted|
    ensures var one := RekeyPod(st, w, i, fates); Tracks(one.st, one.w)
  {
    DoTracks(st, w, SetKey(i), fates(|w.log|));
    var w1 := Do(w, SetKey(i), fates(|w.log|));
    if fates(|w1.log|).Acked? {
      RestartTracks(st, w1, i, Flag(st.changed, i));
    } else {
      DoTracks(st, w1, Restart(i), fates(|w1.log|));
    }
  }

  lemma VisitTracks(st: Status, w: World, i: nat, fates: nat -> Fate)
    requires Tracks(st, w)
    ensures var one := VisitPod(st, w, i, fates); Tracks(one.st, one.w)
  {
    var w1 := Do(w, ReadPodSecret(i), fates(|w.log|));
    DoTracks(st, w, ReadPodSecret(i), fates(|w.log|));
    DoTracks(st, w1, EnableMaintenance, fates(|w1.log|));
    var entered := EnterMaintenance(st, w1, fates);
    assert Tracks(entered.st, entered.w);
    if i < |entered.w.mounted| {
      RekeyTracks(entered.st, entered.w, i, fates);
    }
  }

  lemma {:induction false} PodsTrack(st: Status, w: World, i: nat, replicas: nat, fates: nat -> Fate)
    requires Tracks(st, w)
    ensures var pods := VisitPods(st, w, i, replicas, fates); Tracks(pods.st, pods.w)
    decreases replicas - i
  {
    if i < replicas {
      VisitTracks(st, w, i, fates);
      var one := VisitPod(st, w, i, fates);
      if !one.failed {
        PodsTrack(one.st, one.w, i + 1, replicas, fates);
      }
    }
  }

  lemma WriteTracks(st: Status, w: World, name: string, fates: nat -> Fate)
    requires Tracks(st, w)
    ensures var one := WriteOne(st, w, name, fates); Tracks(one.st, one.w)
  {
    var w1 := Do(w, ReadSecret(name), fates(|w.log|));
    DoTracks(st, w, ReadSecret(name), fates(|w.log|));
    var w2 := Do(w1, ReadNamespaceSecret, fates(|w1.log|));
    DoTracks(st, w1, ReadNamespaceSecret, fates(|w1.log|));
    var w3 := Do(w2, ReadSecret(name), fates(|w2.log|));
    DoTracks(st, w2, ReadSecret(name), fates(|w2.log|));
    DoTracks(st, w3, WriteSecret(name), fates(|w3.log|));
    DoTracks(st, w3, MakeSecret(name), fates(|w3.log|));
  }

  lemma {:induction false} WritesTrack(st: Status, w: World, order: seq<string>, fates: nat -> Fate)
    requires Tracks(st, w)
    ensures var done := WriteSecrets(st, w, order, fates); Tracks(done.st, done.w)
    decreases |order|
  {
    if order != [] {
      WriteTracks(st, w, order[0], fates);
      var one := WriteOne(st, w, order[0], fates);
      if !one.failed {
        WritesTrack(one.st, one.w, order[1..], fates);
      }
    }
  }

  lemma ApplyTracks(s: Cr, replicas: nat, order: seq<string>, fates: nat -> Fate)
    requires Tracks(s.st, s.w)
    ensures var done := Apply(s.st, s.w, replicas, order, fates); Tracks(done.st, done.w)
  {
    var w1 := Do(s.w, ReadNamespaceSecret, fates(|s.w.log|));
    DoTracks(s.st, s.w, ReadNamespaceSecret, fates(|s.w.log|));
    PodsTrack(s.st, w1, 0, replicas, fates);
    var pods := VisitPods(s.st, w1, 0, replicas, fates);
    WritesTrack(pods.st, pods.w, order, fates);
  }

  /** The reconcile gets to the end of Ready. */
  predicate Ends(s: Cr, r: Round, replicas: nat) {
    r.Reconcile? &&
    var applied := Apply(s.st, s.w, replicas, r.order, r.fates);
    && !applied.failed && r.info.Known? && r.podsReady
    && !ReadyBranch(Refresh(applied.st, applied.w, r.info), applied.w, r.fates).failed
  }

  lemma PlayTracks(s: Cr, r: Round, replicas: nat)
    requires Tracks(s.st, s.w) && !Ends(s, r, replicas)
    ensures var t := Play(s, r, replicas); Tracks(t.st, t.w)
  {
    if r.Reconcile? {
      ApplyTracks(s, replicas, r.order, r.fates);
      var applied := Apply(s.st, s.w, replicas, r.order, r.fates);
      var st := Refresh(applied.st, applied.w, r.info);
      assert Tracks(st, applied.w);
      if st.changed != [] {
        DoTracks(st, applied.w, DisableMaintenance, r.fates(|applied.w.log|));
      }
    }
  }

  ghost predicate NoneEnds(s: Cr, rounds: seq<Round>, replicas: nat) {
    forall k :: 0 <= k < |rounds| ==> !Ends(Rounds(s, rounds[..k], replicas), rounds[k], replicas)
  }

  lemma {:induction false} RunTracks(s: Cr, rounds: seq<Round>, replicas: nat)
    requires Tracks(s.st, s.w) && NoneEnds(s, rounds, replicas)
    ensures var t := Rounds(s, rounds, replicas); Tracks(t.st, t.w)
    decreases |rounds|
  {
    if rounds != [] {
      var k := |rounds| - 1;
      forall j | 0 <= j < k ensures !Ends(Rounds(s, rounds[..k][..j], replicas), rounds[..k][j], replicas) {
        assert rounds[..k][..j] == rounds[..j];
      }
      RunTracks(s, rounds[..k], replicas);
      PlayTracks(Rounds(s, rounds[..k], replicas), rounds[k], replicas);
    }
  }

  /**
   From a cluster that is not in maintenance mode, over any run of reconciles up to the Ready that ends a
   re-key: the mode is off afterwards exactly if a restart was seen to succeed on the way, or enabling the
   mode never took effect.
   */
  lemma ModeOffIff(s: Cr, rounds: seq<Round>, last: Round, replicas: nat)
    requires s.st.changed == [] && !s.w.maintenance && s.w.log == [] && NoneEnds(s, rounds, replicas)
    requires Ends(Rounds(s, rounds, replicas), last, replicas)
    ensures var t := Rounds(s, rounds + [last], replicas);
      && t.st.changed == []
      && (!t.w.maintenance <==> RestartSeen(t.w.log) || !Enabled(t.w.log))
  {
    var before := Rounds(s, rounds, replicas);
    assert (rounds + [last])[..|rounds|] == rounds;
    RunTracks(s, rounds, replicas);
    ApplyTracks(before, replicas, last.order, last.fates);
    var applied := Apply(before.st, before.w, replicas, last.order, last.fates);
    LogMore(applied.w.log, Entry(DisableMaintenance, Acked, applied.w.maintenance));
  }

  lemma RoundLeavesAlone(s: Cr, r: Round, replicas: nat) returns (t: Cr)
    requires s.st.changed == [] && s.st.version != "" && s.st.version == s.w.version
    ensures t == Play(s, r, replicas) && t.w.maintenance == s.w.maintenance
    ensures t.st.changed == [] && t.st.version == s.st.version && t.w.version == s.w.version
  {
    t := Play(s, r, replicas);
  }

  /** Once the change is over, no reconcile touches the mode until the namespace secret changes again. */
  lemma {:induction false} ModeIsLeftAlone(s: Cr, rounds: seq<Round>, replicas: nat)
    requires s.st.changed == [] && s.st.version != "" && s.st.version == s.w.version
    ensures var t := Rounds(s, rounds, replicas);
      && t.w.maintenance == s.w.maintenance
      && t.st.changed == [] && t.st.version == s.st.version && t.w.version == s.w.version
    decreases |rounds|
  {
    if rounds != [] {
      var k := |rounds| - 1;
      ModeIsLeftAlone(s, rounds[..k], replicas);
      var t := RoundLeavesAlone(Rounds(s, rounds[..k], replicas), rounds[k], replicas);
    }
  }

  /**
   The failing run: the mode is enabled, the key of the one stale indexer cannot be set, the indexer is
   recreated on a new secret, and the cluster is Ready, in maintenance mode.
   */
  lemma ModeStaysOn() returns (s: Cr, rounds: seq<Round>, last: Round)
    ensures JustChanged(s, 1, 1) && !s.w.maintenance && NoneEnds(s, rounds, 1) && Ends(Rounds(s, rounds, 1), last, 1)
    ensures Rounds(s, rounds + [last], 1).w.maintenance
  {
    s := Cr(Status([], map[], false, "1"), OneStale());
    var first := Reconcile([], k => if k < 3 then Acked else Refused, Known, true);
    last := Reconcile([], k => Acked, Known, true);
    var enabled := FirstFails(s, first);
    rounds := [first, CreateSecret("sec-2"), Remount(0, "sec-2")];
    var t := Recreated(enabled);
    ThreeRounds(s, first, CreateSecret("sec-2"), Remount(0, "sec-2"));
    assert Rounds(s, rounds, 1) == t;
    LastEnds(t, last);
    assert (rounds + [last])[..3] == rounds;
  }

  /** One indexer, on an old key, and a cluster that is not in maintenance mode. */
  function OneStale(): World {
    World("2", "new", "yml", ["sec-1"], map["sec-1" := "old"], map["sec-1" := "old yml"], false, [], multiset{})
  }

  /** The indexer comes back on a new secret. */
  lemma Recreated(s: Cr) returns (t: Cr)
    requires s.w == OneStale().(maintenance := true, log := s.w.log)
    ensures t == Play(Play(s, CreateSecret("sec-2"), 1), Remount(0, "sec-2"), 1)
    ensures t.st == s.st && t.w.version == "2" && t.w.mounted == ["sec-2"] && t.w.maintenance
    ensures "sec-2" in t.w.secrets && t.w.secrets["sec-2"] == t.w.key
  {
    t := Play(Play(s, CreateSecret("sec-2"), 1), Remount(0, "sec-2"), 1);
  }

  lemma FirstFails(s: Cr, r: Round) returns (t: Cr)
    requires s.st == Status([], map[], false, "1")
    requires s.w == OneStale()
    requires r.Reconcile? && forall k: nat :: r.fates(k) == if k < 3 then Acked else Refused
    ensures t == Play(s, r, 1) && !Ends(s, r, 1)
    ensures t.st == Status([], map[], true, "1") && t.w == s.w.(maintenance := true, log := t.w.log)
  {
    var w1 := Do(s.w, ReadNamespaceSecret, Acked);
    var w2 := Do(w1, ReadPodSecret(0), Acked);
    var w3 := Do(w2, EnableMaintenance, Acked);
    var w4 := Do(w3, SetKey(0), Refused);
    assert Stale(w1, 0) && |w1.log| == 1 && |w2.log| == 2 && |w3.log| == 3;
    var st := s.st.(maintenance := true);
    assert EnterMaintenance(s.st, w2, r.fates) == Pass(st, w3, false);
    assert RekeyPod(st, w3, 0, r.fates) == Pass(st, w4, true);
    assert VisitPod(s.st, w1, 0, r.fates) == Pass(st, w4, true);
    assert VisitPods(s.st, w1, 0, 1, r.fates) == Pass(st, w4, true);
    t := Cr(st, w4);
  }

  lemma ThreeRounds(s: Cr, a: Round, b: Round, c: Round)
    ensures Rounds(s, [a, b, c], 1) == Play(Play(Play(s, a, 1), b, 1), c, 1)
    ensures Rounds(s, [a, b, c][..0], 1) == s && Rounds(s, [a, b, c][..1], 1) == Play(s, a, 1)
    ensures Rounds(s, [a, b, c][..2], 1) == Play(Play(s, a, 1), b, 1)
  {
    assert [a, b, c][..1] == [a] && [a, b, c][..2] == [a, b] && [a, b][..1] == [a] && [a][..0] == [];
    assert Rounds(s, [a], 1) == Play(s, a, 1);
    assert Rounds(s, [a, b], 1) == Play(Play(s, a, 1), b, 1);
  }

  lemma LastEnds(t: Cr, r: Round)
    requires t.st == Status([], map[], true, "1") && t.w.version == "2" && t.w.mounted == ["sec-2"] && t.w.maintenance
    requires "sec-2" in t.w.secrets && t.w.secrets["sec-2"] == t.w.key
    requires r.Reconcile? && r.order == [] && r.info.Known? && r.podsReady && forall k: nat :: r.fates(k) == Acked
    ensures Ends(t, r, 1) && Play(t, r, 1).w.maintenance
  {
    var w1 := Do(t.w, ReadNamespaceSecret, Acked);
    var w2 := Do(w1, ReadPodSecret(0), Acked);
    assert VisitPod(t.st, w1, 0, r.fates) == Pass(t.st, w2, false);
    assert VisitPods(t.st, w2, 1, 1, r.fates) == Pass(t.st, w2, false);
    assert VisitPods(t.st, w1, 0, 1, r.fates) == Pass(t.st, w2, false);
    assert Apply(t.st, t.w, 1, r.order, r.fates) == Pass(t.st, w2, false);
  }
}
