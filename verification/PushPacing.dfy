/** Bundle pushes over whole runs: how far apart they are tried, what is pushed, and which changes get there. */
module PushPacing {
  import opened Wrappers
  import opened Decimal
  import StatefulSets
  import opened BundlePush

  datatype Saved = Saved(st: Status, w: World)

  /** One reconcile, and the status written back after it. */
  function Play(s: Saved, r: Round): Saved {
    var o := Reconcile(s.st, s.w, r);
    Saved(o.st, o.w)
  }

  function Run(s: Saved, rounds: seq<Round>): Saved {
    if rounds == [] then s else Play(Run(s, rounds[..|rounds| - 1]), rounds[|rounds| - 1])
  }

  /** The clock never goes back, within a round or from one to the next. */
  ghost predicate ClockAdvances(start: nat, rounds: seq<Round>) {
    && (forall k :: 0 <= k < |rounds| ==> start <= rounds[k].now <= rounds[k].later)
    && (forall j, k :: 0 <= j < k < |rounds| ==> rounds[j].later <= rounds[k].now)
  }

  predicate Timed(act: Act) {
    act.Attempt? || act.ConfigChange?
  }

  /** Every attempt comes at least five seconds after each attempt and change before it. */
  ghost predicate Spaced(log: seq<Act>) {
    forall i, j :: 0 <= i < j < |log| && Timed(log[i]) && log[j].Attempt? ==> log[i].at + 5 <= log[j].at
  }

  /** All attempts and changes so far are remembered by the last check. */
  ghost predicate Remembered(log: seq<Act>, lastCheck: nat) {
    forall i :: 0 <= i < |log| && Timed(log[i]) ==> log[i].at <= lastCheck
  }

  /** Each push went out with the pod's token equal to the ConfigMap's, right after an attempt. */
  ghost predicate PushesMatch(log: seq<Act>) {
    forall i :: 0 <= i < |log| && log[i].Push? ==>
      log[i].podToken == log[i].mapToken && i > 0 && log[i - 1] == Attempt(log[i].at)
  }

  ghost predicate Sound(s: Saved, clock: nat) {
    Spaced(s.w.log) && PushesMatch(s.w.log) && Remembered(s.w.log, s.st.lastCheck) && s.st.lastCheck <= clock
  }

  lemma ConfigureIsSound(s: Saved, r: Round, clock: nat)
    requires Sound(s, clock) && clock <= r.now
    ensures var c := Configure(s.st, s.w, r);
      Sound(Saved(if c.failed then s.st else c.st, c.w), r.now)
  {
  }

  lemma PushIsSound(s: Saved, r: Round, clock: nat)
    requires Sound(s, clock) && clock <= r.later
    ensures var p := PerformPush(s.st, s.w, r); Sound(Saved(p.st, p.w), r.later)
  {
  }

  lemma PlayIsSound(s: Saved, r: Round, clock: nat)
    requires Sound(s, clock) && clock <= r.now <= r.later
    ensures Sound(Play(s, r), r.later)
  {
    ConfigureIsSound(s, r, clock);
    var c := Configure(s.st, s.w, r);
    if !c.failed {
      PushIsSound(Saved(c.st, c.w), r, r.now);
    }
  }

  /** Over any run attempts are five seconds apart and after a change, and only what the pod has is pushed. */
  lemma {:induction false} AttemptsArePaced(s: Saved, start: nat, rounds: seq<Round>)
    requires s.w.log == [] && s.st.lastCheck <= start && ClockAdvances(start, rounds)
    ensures Spaced(Run(s, rounds).w.log) && PushesMatch(Run(s, rounds).w.log)
    ensures Sound(Run(s, rounds), if rounds == [] then start else rounds[|rounds| - 1].later)
    decreases |rounds|
  {
    if rounds != [] {
      var k := |rounds| - 1;
      AttemptsArePaced(s, start, rounds[..k]);
      PlayIsSound(Run(s, rounds[..k]), rounds[k], if k == 0 then start else rounds[k - 1].later);
    }
  }

  /** The flag goes away only by a push that succeeded, in a reconcile that found everything ready. */
  lemma FlagClearedByPush(s: Saved, r: Round)
    requires s.st.needToPush && !Play(s, r).st.needToPush
    ensures r.phase == StatefulSets.Ready && r.push.Acked?
    ensures var t := Play(s, r); var n := |t.w.log|;
      && n > |s.w.log| && t.w.log[n - 1].Push? && t.w.log[n - 1].fate.Acked?
      && t.w.stored.Some? && r.podToken == Some(TokenOf(t.w.stored.value))
  {
  }

  lemma LogOnlyGrows(s: Saved, r: Round)
    ensures s.w.log <= Play(s, r).w.log
  {
  }

  predicate AckedPush(act: Act) {
    act.Push? && act.fate.Acked?
  }

  ghost predicate PushedSince(log: seq<Act>, n: nat) {
    exists i :: n <= i < |log| && AckedPush(log[i])
  }

  lemma PushedStays(log: seq<Act>, more: seq<Act>, n: nat)
    requires PushedSince(log, n) && log <= more
    ensures PushedSince(more, n)
  {
    var i :| n <= i < |log| && AckedPush(log[i]);
    assert more[i] == log[i];
  }

  /** While the flag is set the resource stays queued. */
  lemma FlaggedIsRequeued(s: Saved, r: Round)
    ensures Reconcile(s.st, s.w, r).st.needToPush ==> Reconcile(s.st, s.w, r).requeue
    ensures Reconcile(s.st, s.w, r).failed ==> Reconcile(s.st, s.w, r).requeue
  {
  }

  /**
   Over any run: a flag that was set and is not any more has been answered by an acknowledged push; and
   while it is set the resource stays queued.
   */
  lemma {:induction false} ClearedOnlyByPush(s: Saved, rounds: seq<Round>)
    requires s.st.needToPush
    ensures s.w.log <= Run(s, rounds).w.log
    ensures !Run(s, rounds).st.needToPush ==> PushedSince(Run(s, rounds).w.log, |s.w.log|)
    ensures Run(s, rounds).st.needToPush && rounds != [] ==>
      var k := |rounds| - 1;
      Reconcile(Run(s, rounds[..k]).st, Run(s, rounds[..k]).w, rounds[k]).requeue
    decreases |rounds|
  {
    if rounds != [] {
      var k := |rounds| - 1;
      var t, u := Run(s, rounds[..k]), Run(s, rounds);
      ClearedOnlyByPush(s, rounds[..k]);
      LogOnlyGrows(t, rounds[k]);
      FlaggedIsRequeued(t, rounds[k]);
      if !t.st.needToPush {
        PushedStays(t.w.log, u.w.log, |s.w.log|);
      } else if !u.st.needToPush {
        FlagClearedByPush(t, rounds[k]);
        assert AckedPush(u.w.log[|u.w.log| - 1]);
      }
    }
  }

  /** With the flag set, a quiet reconcile five seconds on that finds the pod up to date pushes. */
  lemma DuePushHappens(s: Saved, r: Round)
    requires s.st.needToPush && s.st.smartStore == r.spec && r.keysChanged == Some(false)
    requires r.othersOk && r.phase == StatefulSets.Ready && r.consoleOk && r.mapFound && r.passwordFound
    requires s.w.stored.Some? && r.podToken == Some(TokenOf(s.w.stored.value))
    ensures (exists act :: act in Play(s, r).w.log[|s.w.log|..] && act.Push?) <==> s.st.lastCheck + 5 <= r.later
    ensures !Play(s, r).st.needToPush <==> s.st.lastCheck + 5 <= r.later && r.push.Acked?
  {
    var t := Play(s, r);
    if s.st.lastCheck + 5 <= r.later {
      var token := TokenOf(s.w.stored.value);
      assert t.w.log[|s.w.log|..] == [Attempt(r.later), Push(r.later, r.podToken.value, token, r.push)];
      assert t.w.log[|s.w.log|..][1] in t.w.log[|s.w.log|..];
    } else {
      assert t.w.log[|s.w.log|..] == [];
    }
  }

  /** With no flag and nothing new to apply, no run ever attempts or pushes anything. */
  lemma {:induction false} UnmarkedIsNeverPushed(s: Saved, rounds: seq<Round>)
    requires !s.st.needToPush
    requires forall k :: 0 <= k < |rounds| ==> rounds[k].spec == s.st.smartStore && rounds[k].keysChanged != Some(true)
    ensures Run(s, rounds) == s
    decreases |rounds|
  {
    if rounds != [] {
      UnmarkedIsNeverPushed(s, rounds[..|rounds| - 1]);
    }
  }

  /** A round that only pushes: the pod has the token of the data in the ConfigMap, and five seconds have passed. */
  predicate OnlyPushes(s: Saved, r: Round) {
    && r.spec == s.st.smartStore && r.keysChanged == Some(false)
    && r.othersOk && r.phase == StatefulSets.Ready && r.consoleOk && r.mapFound && r.passwordFound && r.push.Acked?
    && s.w.stored.Some? && r.podToken == Some(TokenOf(s.w.stored.value)) && s.st.lastCheck + 5 <= r.later
  }

  /** A due push sends out what the ConfigMap holds. */
  lemma PushSendsStored(s: Saved, r: Round)
    requires s.st.needToPush && OnlyPushes(s, r)
    ensures var token := TokenOf(s.w.stored.value);
      Play(s, r) == Saved(Status(s.st.smartStore, false, r.later),
                          World(s.w.stored, s.w.log + [Attempt(r.later), Push(r.later, token, token, Acked)]))
  {
    assert (s.w.log + [Attempt(r.later)]) + [Push(r.later, r.podToken.value, r.podToken.value, r.push)]
        == s.w.log + [Attempt(r.later), Push(r.later, r.podToken.value, r.podToken.value, r.push)];
  }
}
