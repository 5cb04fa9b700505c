/** How one reconcile of a cluster master ends: what it applies, tries and pushes, what it saves and reports. */
module BundleVerdicts {
  import opened Wrappers
  import opened Decimal
  import StatefulSets
  import opened BundlePush

  /** Data has to be written unless it was read to be there already. */
  predicate Needed(stored: Option<MapData>, wanted: MapData, got: bool) {
    !(got && stored == Some(wanted))
  }

  /** What a write leaves: a ConfigMap that exists and was not read stays as it is. */
  function Left(stored: Option<MapData>, wanted: MapData, got: bool, fate: Fate): Option<MapData> {
    if Needed(stored, wanted, got) && !fate.Refused? && (stored.None? || got) then Some(wanted) else stored
  }

  function Plain(conf: string): MapData {
    MapData(conf, None)
  }

  /** The configuration with the time as its token. */
  function Marked(conf: string, now: nat): MapData {
    MapData(conf, Some(Itoa(now)))
  }

  /** The configuration had to be written, and that was acknowledged. */
  predicate WrotePlain(stored: Option<MapData>, r: Round) {
    r.conf.Some? && Needed(stored, Plain(r.conf.value), r.got && stored.Some?) && r.write.Acked?
  }

  /** ... and so the token has to be written. */
  predicate NeedsToken(stored: Option<MapData>, r: Round) {
    && WrotePlain(stored, r)
    && var between := Left(stored, Plain(r.conf.value), r.got && stored.Some?, r.write);
       Needed(between, Marked(r.conf.value, r.now), r.gotAgain && between.Some?)
  }

  predicate Changed(stored: Option<MapData>, r: Round) {
    NeedsToken(stored, r) && r.writeToken.Acked?
  }

  /** A key could not be read, or a write that was needed was not acknowledged. */
  predicate Fails(stored: Option<MapData>, r: Round) {
    || r.conf.None?
    || (Needed(stored, Plain(r.conf.value), r.got && stored.Some?) && !r.write.Acked?)
    || (NeedsToken(stored, r) && !r.writeToken.Acked?)
  }

  function LeftInMap(stored: Option<MapData>, r: Round): Option<MapData> {
    if r.conf.None? then stored
    else
      var between := Left(stored, Plain(r.conf.value), r.got && stored.Some?, r.write);
      if WrotePlain(stored, r)
      then Left(between, Marked(r.conf.value, r.now), r.gotAgain && between.Some?, r.writeToken)
      else between
  }

  /** How applying the configuration ends: what is in the ConfigMap, and whether that is a change, or an error. */
  lemma MapEnds(stored: Option<MapData>, r: Round)
    ensures ApplySmartstore(stored, r) == MapResult(LeftInMap(stored, r), Changed(stored, r), Fails(stored, r))
  {
  }

  /** There is something to apply: another spec, or other keys to its volumes. */
  predicate Applies(st: Status, r: Round) {
    st.smartStore != r.spec || r.keysChanged == Some(true)
  }

  /** The push is tried, given whether the configuration was changed before and no error came up there. */
  predicate Tries(st: Status, r: Round, changed: bool) {
    && r.othersOk && r.phase == StatefulSets.Ready && r.consoleOk
    && (st.needToPush || changed)
    && (if changed then r.now else st.lastCheck) + 5 <= r.later
  }

  /** A push that is tried is made: the pod has the ConfigMap's token, and the password is at hand. */
  predicate Makes(stored: Option<MapData>, r: Round) {
    && r.podToken.Some? && r.mapFound && stored.Some? && r.passwordFound
    && r.podToken.value == (if stored.value.token.Some? then stored.value.token.value else "")
  }

  function Acts(changed: bool, tried: bool, made: bool, r: Round): seq<Act> {
    (if changed then [ConfigChange(r.now)] else [])
    + (if tried then [Attempt(r.later)] else [])
    + (if made && r.podToken.Some? then [Push(r.later, r.podToken.value, r.podToken.value, r.push)] else [])
  }

  /**
   How a reconcile ends whose configuration is applied without error: what it does, in order; the flag is
   set by a change, and cleared only by an acknowledged push; the last check is that of the last change or
   attempt; an error is reported for anything that failed or is not yet due; and the resource is queued
   again with an error, before everything is ready, and as long as the flag is set.
   */
  ghost predicate EndsConfigured(st: Status, w: World, r: Round, changed: bool, o: Outcome) {
    var tried := Tries(st, r, changed);
    var made := tried && Makes(o.w.stored, r);
    && o.w.log == w.log + Acts(changed, tried, made, r)
    && o.st.smartStore == r.spec
    && (o.st.needToPush <==> (st.needToPush || changed) && !(made && r.push.Acked?))
    && o.st.lastCheck == (if tried then r.later else if changed then r.now else st.lastCheck)
    && (o.failed <==>
          || !r.othersOk
          || (r.phase == StatefulSets.Ready
              && (!r.consoleOk || ((st.needToPush || changed) && !(made && r.push.Acked?)))))
    && (o.requeue <==> o.failed || r.phase != StatefulSets.Ready || o.st.needToPush)
  }

  /** ... and one whose configuration is not: nothing is done or saved. */
  ghost predicate EndsUnconfigured(st: Status, w: World, o: Outcome) {
    o.failed && o.requeue && o.st == st && o.w.log == w.log
  }

  /** How any reconcile ends. */
  ghost predicate Ends(st: Status, w: World, r: Round, o: Outcome) {
    if Applies(st, r) then
      && o.w.stored == LeftInMap(w.stored, r)
      && (if Fails(w.stored, r) then EndsUnconfigured(st, w, o)
          else EndsConfigured(st, w, r, Changed(w.stored, r), o))
    else
      && o.w.stored == w.stored
      && (if r.keysChanged.None? then EndsUnconfigured(st, w, o) else EndsConfigured(st, w, r, false, o))
  }

  lemma ActsAre(log: seq<Act>, changed: bool, r: Round)
    ensures log + Acts(false, false, false, r) == log
    ensures log + Acts(changed, false, false, r) == if changed then log + [ConfigChange(r.now)] else log
    ensures log + Acts(changed, true, false, r) == log + Acts(changed, false, false, r) + [Attempt(r.later)]
    ensures r.podToken.Some? ==>
      var push := Push(r.later, r.podToken.value, r.podToken.value, r.push);
      log + Acts(changed, true, true, r) == log + Acts(changed, false, false, r) + [Attempt(r.later)] + [push]
  {
  }

  lemma ReconcileEnds(st: Status, w: World, r: Round)
    ensures Ends(st, w, r, Reconcile(st, w, r))
  {
    MapEnds(w.stored, r);
    ActsAre(w.log, false, r);
    ActsAre(w.log, true, r);
  }
}
