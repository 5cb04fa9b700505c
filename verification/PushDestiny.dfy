/**
 What becomes of a new SmartStore configuration. Writing it may fail any number of times, and each read of
 the ConfigMap may fail; the reconcile that applies it then decides whether it is pushed, something else is
 pushed in its place, a push is due for ever, or it is forgotten.
 */
module PushDestiny {
  import opened Wrappers
  import opened Decimal
  import StatefulSets
  import opened BundlePush
  import opened PushPacing

  /** The configuration without a token, and with the token of time `at`. */
  function Bare(conf: string): Option<MapData> {
    Some(MapData(conf, None))
  }

  function Tokened(conf: string, at: nat): Option<MapData> {
    Some(MapData(conf, Some(Itoa(at))))
  }

  /** A reconcile that has configuration `conf` of `spec` to apply; a key may be unreadable. */
  predicate Wants(st: Status, r: Round, spec: string, conf: string) {
    && r.spec == spec && (st.smartStore != spec || r.keysChanged == Some(true))
    && (r.conf.None? || r.conf.value == conf)
  }

  /** The first read finds just what the first write would write. */
  predicate SkipsData(h: Option<MapData>, r: Round, conf: string) {
    r.got && h == Bare(conf)
  }

  /** Only the second read succeeds, and finds a token of this very second. */
  predicate SkipsToken(h: Option<MapData>, r: Round, conf: string) {
    !r.got && r.gotAgain && h == Tokened(conf, r.now)
  }

  /** The configuration step ends in an error. */
  predicate Fails(h: Option<MapData>, r: Round, conf: string) {
    || r.conf.None?
    || (!SkipsData(h, r, conf) && (!r.write.Acked? || (!r.writeToken.Acked? && !SkipsToken(h, r, conf))))
  }

  /** What a failed step leaves in the ConfigMap that held `h`. */
  function Left(h: Option<MapData>, r: Round, conf: string): Option<MapData> {
    if r.conf.None? then h
    else if r.write.Acked? && r.gotAgain && !r.writeToken.Refused? then Tokened(conf, r.now)
    else if !r.write.Refused? && (r.got || h.None?) then Bare(conf)
    else h
  }

  function LeftByAll(h: Option<MapData>, tries: seq<Round>, conf: string): Option<MapData> {
    if tries == [] then h
    else Left(LeftByAll(h, tries[..|tries| - 1], conf), tries[|tries| - 1], conf)
  }

  ghost predicate AllFail(s: Saved, tries: seq<Round>, spec: string, conf: string) {
    forall k :: 0 <= k < |tries| ==>
      Wants(s.st, tries[k], spec, conf) && Fails(LeftByAll(s.w.stored, tries[..k], conf), tries[k], conf)
  }

  lemma TryFails(s: Saved, r: Round, conf: string)
    requires Wants(s.st, r, r.spec, conf)
    ensures Configure(s.st, s.w, r).failed <==> Fails(s.w.stored, r, conf)
    ensures Fails(s.w.stored, r, conf) ==>
      Play(s, r) == Saved(s.st, s.w.(stored := Left(s.w.stored, r, conf))) && Reconcile(s.st, s.w, r).requeue
  {
  }

  /** Failed reconciles change nothing but the ConfigMap. */
  lemma {:induction false} TriesLeave(s: Saved, tries: seq<Round>, spec: string, conf: string)
    requires AllFail(s, tries, spec, conf)
    ensures Run(s, tries) == Saved(s.st, s.w.(stored := LeftByAll(s.w.stored, tries, conf)))
    decreases |tries|
  {
    if tries != [] {
      var k := |tries| - 1;
      forall j | 0 <= j < k
        ensures Wants(s.st, tries[..k][j], spec, conf)
        ensures Fails(LeftByAll(s.w.stored, tries[..k][..j], conf), tries[..k][j], conf)
      {
        assert tries[..k][..j] == tries[..j];
      }
      TriesLeave(s, tries[..k], spec, conf);
      TryFails(Run(s, tries[..k]), tries[k], conf);
    }
  }

  /** What is to come of the configuration a status holds as applied. */
  datatype Destiny =
    | Forgotten             // no push is due
    | Stuck                 // a push is due, but the ConfigMap has no token to wait for
    | Pushed(conf: string)  // a push is due, of the configuration in the ConfigMap

  function DestinyOf(t: Saved): Destiny {
    if !t.st.needToPush then Forgotten
    else if t.w.stored.None? || TokenOf(t.w.stored.value) == "" then Stuck
    else Pushed(t.w.stored.value.conf)
  }

  /** Rounds that have nothing new to apply. A pod never shows an empty token. */
  ghost predicate NothingNew(t: Saved, rest: seq<Round>) {
    forall k :: 0 <= k < |rest| ==>
      rest[k].spec == t.st.smartStore && rest[k].keysChanged != Some(true) && rest[k].podToken != Some("")
  }

  ghost predicate PushesOnly(log: seq<Act>, n: nat, token: string) {
    forall i :: n <= i < |log| && log[i].Push? ==> log[i].mapToken == token
  }

  ghost predicate NoPush(log: seq<Act>, n: nat) {
    forall i :: n <= i < |log| ==> !log[i].Push?
  }

  lemma {:induction false} StoredStays(t: Saved, rest: seq<Round>)
    requires NothingNew(t, rest)
    ensures var u := Run(t, rest);
      && u.w.stored == t.w.stored && u.st.smartStore == t.st.smartStore && t.w.log <= u.w.log
      && PushesOnly(u.w.log, |t.w.log|, if t.w.stored.Some? then TokenOf(t.w.stored.value) else "")
    decreases |rest|
  {
    if rest != [] {
      StoredStays(t, rest[..|rest| - 1]);
    }
  }

  /** Without a token to wait for, a push stays due and is never made. */
  lemma {:induction false} StuckStays(t: Saved, rest: seq<Round>)
    requires DestinyOf(t) == Stuck && NothingNew(t, rest)
    ensures var u := Run(t, rest); u.st.needToPush && NoPush(u.w.log, |t.w.log|)
    decreases |rest|
  {
    if rest != [] {
      StuckStays(t, rest[..|rest| - 1]);
      StoredStays(t, rest[..|rest| - 1]);
    }
  }

  /** A due push comes about: the pod gets the ConfigMap's token, and five seconds pass. */
  lemma PushComes(t: Saved) returns (rest: seq<Round>)
    requires DestinyOf(t).Pushed?
    ensures NothingNew(t, rest) && PushedSince(Run(t, rest).w.log, |t.w.log|)
  {
    var token, later := TokenOf(t.w.stored.value), t.st.lastCheck + 5;
    var r := Clean(t.st.smartStore, "", later).(phase := StatefulSets.Ready, podToken := Some(token));
    rest := [r];
    PushSendsStored(t, r);
    assert Run(t, rest) == Play(Run(t, rest[..0]), r) && Run(t, rest[..0]) == t;
    var log := Run(t, rest).w.log;
    assert AckedPush(log[|t.w.log| + 1]);
  }

  /** Some run with nothing new to apply pushes configuration `conf`. */
  ghost predicate MayPush(t: Saved, conf: string) {
    exists rest :: NothingNew(t, rest) && PushesWith(t, rest, conf)
  }

  ghost predicate PushesWith(t: Saved, rest: seq<Round>, conf: string) {
    var u := Run(t, rest);
    PushedSince(u.w.log, |t.w.log|) && u.w.stored.Some? && u.w.stored.value.conf == conf
  }

  /** No such run pushes anything. */
  ghost predicate NeverPushes(t: Saved) {
    forall rest :: NothingNew(t, rest) ==> NoPush(Run(t, rest).w.log, |t.w.log|)
  }

  /** The push flag stays set in every such run, so that the resource stays queued. */
  ghost predicate StaysDue(t: Saved) {
    forall rest :: NothingNew(t, rest) ==> Run(t, rest).st.needToPush
  }

  lemma DestinyMeans(t: Saved)
    ensures forall conf :: DestinyOf(t) == Pushed(conf) <==> MayPush(t, conf)
    ensures DestinyOf(t) == Stuck <==> NeverPushes(t) && StaysDue(t)
    ensures DestinyOf(t) == Forgotten <==> NeverPushes(t) && !StaysDue(t)
  {
    match DestinyOf(t)
    case Pushed(_) => PushedMeans(t);
    case _ => QuietMeans(t);
  }

  lemma PushedMeans(t: Saved)
    requires DestinyOf(t).Pushed?
    ensures !NeverPushes(t) && forall conf :: DestinyOf(t) == Pushed(conf) <==> MayPush(t, conf)
  {
    var rest := PushComes(t);
    StoredStays(t, rest);
    assert PushesWith(t, rest, t.w.stored.value.conf);
    forall conf, more | NothingNew(t, more) && PushesWith(t, more, conf) ensures conf == t.w.stored.value.conf {
      StoredStays(t, more);
    }
  }

  lemma QuietMeans(t: Saved)
    requires !DestinyOf(t).Pushed?
    ensures NeverPushes(t) && (StaysDue(t) <==> t.st.needToPush) && forall conf :: !MayPush(t, conf)
  {
    forall rest | NothingNew(t, rest)
      ensures NoPush(Run(t, rest).w.log, |t.w.log|) && Run(t, rest).st.needToPush == t.st.needToPush
    {
      if t.st.needToPush {
        StuckStays(t, rest);
      } else {
        UnmarkedIsNeverPushed(t, rest);
      }
    }
    assert NothingNew(t, []) && Run(t, []) == t;
  }

  /** Which destiny the reads of the reconcile that applies the configuration give it; the ConfigMap held `h`. */
  function Goes(h: Option<MapData>, r: Round, conf: string, due: bool): Destiny {
    if !due && (SkipsData(h, r, conf) || SkipsToken(h, r, conf)) then Forgotten
    else if r.gotAgain && !SkipsData(h, r, conf) then Pushed(conf)
    else if !r.got && h.Some? && TokenOf(h.value) != "" then Pushed(h.value.conf)
    else Stuck
  }

  /** The state in which a reconcile goes on once its configuration step is over. */
  function Configured(s: Saved, r: Round): Saved {
    var c := Configure(s.st, s.w, r);
    Saved(c.st, c.w)
  }

  lemma StepGoes(s: Saved, r: Round, conf: string)
    requires Wants(s.st, r, r.spec, conf) && !Fails(s.w.stored, r, conf)
    ensures !Configure(s.st, s.w, r).failed && Configured(s, r).st.smartStore == r.spec
    ensures DestinyOf(Configured(s, r)) == Goes(s.w.stored, r, conf, s.st.needToPush)
    ensures Play(s, r) == Play(Configured(s, r), r.(keysChanged := Some(false)))
  {
  }

  /**
   Over any run of reconciles for a new configuration that fail, up to one that applies it. The new
   configuration is pushed exactly if Goes says so of what the failed ones left and of the two reads of the
   last one. If the second read succeeds this is so unless the first found the new data without a token; if
   it fails, whatever the ConfigMap then holds is pushed, or a push stays due for ever.
   */
  lemma NewConfigurationGoes(s: Saved, tries: seq<Round>, last: Round, conf: string) returns (t: Saved)
    requires AllFail(s, tries, last.spec, conf) && Wants(s.st, last, last.spec, conf)
    requires !Fails(LeftByAll(s.w.stored, tries, conf), last, conf)
    ensures var goes := Goes(LeftByAll(s.w.stored, tries, conf), last, conf, s.st.needToPush);
      && (forall c :: MayPush(t, c) <==> goes == Pushed(c))
      && (NeverPushes(t) && StaysDue(t) <==> goes == Stuck)
      && (NeverPushes(t) && !StaysDue(t) <==> goes == Forgotten)
    ensures t == Configured(Run(s, tries), last) && t.st.smartStore == last.spec
    ensures Run(s, tries + [last]) == Play(t, last.(keysChanged := Some(false)))
  {
    TriesLeave(s, tries, last.spec, conf);
    StepGoes(Run(s, tries), last, conf);
    t := Configured(Run(s, tries), last);
    DestinyMeans(t);
    assert (tries + [last])[..|tries|] == tries;
  }

  /** A reconcile in which everything goes well, up to a StatefulSet that is not ready yet. */
  function Clean(spec: string, conf: string, now: nat): Round {
    Round(spec, Some(false), Some(conf), now, true, Acked, true, Acked, true, StatefulSets.Pending, true, now, None,
          true, true, Acked)
  }

  /** An old configuration has been written and pushed. */
  function Before(): Saved {
    Saved(Status("old", false, 0), World(Some(MapData("OLD", Some("1"))), []))
  }

  lemma RunOne(s: Saved, r: Round)
    ensures Run(s, [r]) == Play(s, r)
  {
    assert Run(s, [r][..0]) == s;
  }

  /** The token cannot be written, and the retry finds the data in place: the new configuration is forgotten. */
  lemma TokenFailsOnce() returns (tries: seq<Round>, last: Round)
    ensures AllFail(Before(), tries, "new", "NEW")
    ensures var t := Run(Before(), tries + [last]);
      t.st.smartStore == "new" && t.w.stored == Bare("NEW") && NeverPushes(t) && !StaysDue(t)
  {
    var first := Clean("new", "NEW", 10).(writeToken := Refused);
    tries, last := [first], Clean("new", "NEW", 20);
    assert LeftByAll(Before().w.stored, tries[..0], "NEW") == Before().w.stored;
    var t := NewConfigurationGoes(Before(), tries, last, "NEW");
    TriesLeave(Before(), tries, "new", "NEW");
  }

  /** The second read fails: a push of the new configuration is due for ever, and never made. */
  lemma SecondReadFails() returns (last: Round)
    ensures var t := Run(Before(), [last]);
      t.st.smartStore == "new" && t.w.stored == Bare("NEW") && NeverPushes(t) && StaysDue(t)
  {
    last := Clean("new", "NEW", 10).(gotAgain := false);
    RunOne(Before(), last);
    assert Play(Before(), last) == Saved(Status("new", true, 10), World(Bare("NEW"), [ConfigChange(10)]));
    DestinyMeans(Play(Before(), last));
  }

  /** Both reads fail: the old configuration is pushed in place of the new one. */
  lemma BothReadsFail() returns (last: Round)
    ensures var t := Run(Before(), [last]);
      t.st.smartStore == "new" && MayPush(t, "OLD") && !MayPush(t, "NEW")
  {
    last := Clean("new", "NEW", 10).(got := false, gotAgain := false);
    RunOne(Before(), last);
    assert Play(Before(), last) == Saved(Status("new", true, 10), World(Before().w.stored, [ConfigChange(10)]));
    DestinyMeans(Play(Before(), last));
  }
}
