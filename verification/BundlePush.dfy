/**
 The cluster master's SmartStore configuration: writing it to a ConfigMap, and pushing it to the
 indexers once the pod has it. One reconcile, with every call's outcome given.
 */
module BundlePush {
  import opened Wrappers
  import opened Decimal
  import StatefulSets

  /** The ConfigMap's data: the configuration, and a token added once the configuration has been written. */
  datatype MapData = MapData(conf: string, token: Option<string>)

  /** A missing token reads as the empty string. */
  function TokenOf(data: MapData): string {
    if data.token.Some? then data.token.value else ""
  }

  /** What the CR's status remembers: the configuration applied, whether a push is due, and when it was last tried. */
  datatype Status = Status(smartStore: string, needToPush: bool, lastCheck: nat)

  datatype Act =
    | ConfigChange(at: nat)
    | Attempt(at: nat)
    | Push(at: nat, podToken: string, mapToken: string, fate: Fate)

  datatype World = World(stored: Option<MapData>, log: seq<Act>)

  /**
   What one reconcile meets: the wanted spec and the text made from it, unless a key is unreadable; two
   clock readings; and how each call goes. `keysChanged` is None when a volume's secret cannot be read.
   */
  datatype Round = Round(
    spec: string,
    keysChanged: Option<bool>,
    conf: Option<string>,
    now: nat,
    got: bool, write: Fate,
    gotAgain: bool, writeToken: Fate,
    othersOk: bool,
    phase: StatefulSets.Phase,
    consoleOk: bool,
    later: nat,
    podToken: Option<string>,
    mapFound: bool,
    passwordFound: bool,
    push: Fate)

  datatype MapResult = MapResult(stored: Option<MapData>, changed: bool, failed: bool)

  /** ApplyConfigMap: a failed read makes it try to create, and creating what exists passes for success. */
  function ApplyMap(stored: Option<MapData>, wanted: MapData, got: bool, fate: Fate): MapResult {
    if got && stored == Some(wanted) then MapResult(stored, false, false)
    else
      var takesEffect := !fate.Refused? && (got || stored.None?);
      MapResult(if takesEffect then Some(wanted) else stored, fate.Acked?, !fate.Acked?)
  }

  /** ApplySmartstoreConfigMap: the configuration first, then the same with a fresh token. */
  function ApplySmartstore(stored: Option<MapData>, r: Round): MapResult {
    if r.conf.None? then MapResult(stored, false, true)
    else
      var first := ApplyMap(stored, MapData(r.conf.value, None), r.got && stored.Some?, r.write);
      if first.failed || !first.changed then first
      else
        ApplyMap(first.stored, MapData(r.conf.value, Some(Itoa(r.now))), r.gotAgain && first.stored.Some?,
                 r.writeToken)
  }

  datatype Stage = Stage(st: Status, w: World, failed: bool)

  /** The part before the status is sure to be saved. */
  function Configure(st: Status, w: World, r: Round): Stage {
    if st.smartStore == r.spec && r.keysChanged.None? then Stage(st, w, true)
    else if st.smartStore == r.spec && !r.keysChanged.value then Stage(st, w, false)
    else
      var result := ApplySmartstore(w.stored, r);
      var w1 := w.(stored := result.stored);
      if result.failed then Stage(st, w1, true)
      else if result.changed then Stage(Status(r.spec, true, r.now), w1.(log := w1.log + [ConfigChange(r.now)]), false)
      else Stage(st.(smartStore := r.spec), w1, false)
  }

  function PerformPush(st: Status, w: World, r: Round): Stage {
    if !st.needToPush then Stage(st, w, false)
    else if st.lastCheck + 5 > r.later then Stage(st, w, true)
    else
      var st1 := st.(lastCheck := r.later);
      var w1 := w.(log := w.log + [Attempt(r.later)]);
      if r.podToken.None? || !r.mapFound || w.stored.None? || TokenOf(w.stored.value) != r.podToken.value
         || !r.passwordFound
      then Stage(st1, w1, true)
      else
        var w2 := w1.(log := w1.log + [Push(r.later, r.podToken.value, TokenOf(w.stored.value), r.push)]);
        Stage(if r.push.Acked? then st1.(needToPush := false) else st1, w2, !r.push.Acked?)
  }

  /** The status as saved, the world, and whether the reconcile is to be repeated or has failed. */
  datatype Outcome = Outcome(st: Status, w: World, requeue: bool, failed: bool)

  /** ApplyClusterMaster, for a resource that is not being deleted. */
  function Reconcile(st: Status, w: World, r: Round): Outcome {
    var configured := Configure(st, w, r);
    if configured.failed then Outcome(st, configured.w, true, true)
    else if !r.othersOk then Outcome(configured.st, configured.w, true, true)
    else if r.phase != StatefulSets.Ready then Outcome(configured.st, configured.w, true, false)
    else if !r.consoleOk then Outcome(configured.st, configured.w, true, true)
    else
      var pushed := PerformPush(configured.st, configured.w, r);
      Outcome(pushed.st, pushed.w, pushed.failed || pushed.st.needToPush, pushed.failed)
  }

  class Cluster {
    var w: World

    constructor (w: World)
      ensures this.w == w
    {
      this.w := w;
    }

    method ApplyConfigMap(wanted: MapData, got: bool, fate: Fate) returns (changed: bool, failed: bool)
      modifies this
      ensures MapResult(w.stored, changed, failed) == ApplyMap(old(w).stored, wanted, got && old(w).stored.Some?, fate)
      ensures w.log == old(w).log
    {
      if got && w.stored.Some? {
        if w.stored.value == wanted { return false, false; }
        if !fate.Refused? {
          w := w.(stored := Some(wanted));
        }
      } else if w.stored.None? && !fate.Refused? {
        w := w.(stored := Some(wanted));
      }
      return fate.Acked?, !fate.Acked?;
    }

    method ApplySmartstoreConfigMap(r: Round) returns (changed: bool, failed: bool)
      modifies this
      ensures MapResult(w.stored, changed, failed) == ApplySmartstore(old(w).stored, r)
      ensures w.log == old(w).log
    {
      if r.conf.None? { return false, true; }
      changed, failed := ApplyConfigMap(MapData(r.conf.value, None), r.got, r.write);
      if !failed && changed {
        changed, failed := ApplyConfigMap(MapData(r.conf.value, Some(Itoa(r.now))), r.gotAgain, r.writeToken);
      }
    }

    method Note(act: Act)
      modifies this
      ensures w == old(w).(log := old(w).log + [act])
    {
      w := w.(log := w.log + [act]);
    }
  }

  class ClusterMaster {
    var smartStore: string
    var needToPushMasterApps: bool
    var lastCheckInterval: nat

    constructor (st: Status)
      ensures Value() == st
    {
      smartStore, needToPushMasterApps, lastCheckInterval := st.smartStore, st.needToPush, st.lastCheck;
    }

    function Value(): Status
      reads this
    {
      Status(smartStore, needToPushMasterApps, lastCheckInterval)
    }

    method ApplyConfiguration(c: Cluster, r: Round) returns (failed: bool)
      modifies this, c
      ensures Stage(Value(), c.w, failed) == Configure(old(Value()), old(c.w), r)
    {
      var changedKeys := false;
      if smartStore == r.spec {
        if r.keysChanged.None? { return true; }
        changedKeys := r.keysChanged.value;
      }
      if smartStore != r.spec || changedKeys {
        var dataChanged, err := c.ApplySmartstoreConfigMap(r);
        if err { return true; }
        if dataChanged {
          needToPushMasterApps := true;
          lastCheckInterval := r.now;
          c.Note(ConfigChange(r.now));
        }
        smartStore := r.spec;
      }
      return false;
    }

    /** None when the pod is known to have the ConfigMap's token; the tokens compared are returned. */
    method CheckIfsmartstoreConfigMapUpdatedToPod(c: Cluster, r: Round) returns (failed: bool,
                                                  podToken: string, mapToken: string)
      ensures failed ==
        (r.podToken.None? || !r.mapFound || c.w.stored.None? || TokenOf(c.w.stored.value) != r.podToken.value)
      ensures !failed ==> podToken == r.podToken.value && mapToken == TokenOf(c.w.stored.value) && podToken == mapToken
    {
      if r.podToken.None? { return true, "", ""; }
      if !r.mapFound || c.w.stored.None? { return true, r.podToken.value, ""; }
      mapToken := TokenOf(c.w.stored.value);
      return mapToken != r.podToken.value, r.podToken.value, mapToken;
    }

    method PerformCmBundlePush(c: Cluster, r: Round) returns (failed: bool)
      modifies this, c
      ensures Stage(Value(), c.w, failed) == PerformPush(old(Value()), old(c.w), r)
    {
      if !needToPushMasterApps { return false; }
      if lastCheckInterval + 5 > r.later { return true; }
      lastCheckInterval := r.later;
      c.Note(Attempt(r.later));
      var notYet, podToken, mapToken := CheckIfsmartstoreConfigMapUpdatedToPod(c, r);
      if notYet { return true; }
      if !r.passwordFound { return true; }
      c.Note(Push(r.later, podToken, mapToken, r.push));
      if r.push.Acked? {
        needToPushMasterApps := false;
      }
      return !r.push.Acked?;
    }

    /** `saved` is the status that is written back; an error in the configuration leaves it as it was. */
    method ApplyClusterMaster(c: Cluster, r: Round) returns (requeue: bool, failed: bool, saved: Status)
      modifies this, c
      ensures Outcome(saved, c.w, requeue, failed) == Reconcile(old(Value()), old(c.w), r)
    {
      saved := Value();
      requeue := true;
      failed := ApplyConfiguration(c, r);
      if failed { return; }
      if !r.othersOk { return true, true, Value(); }
      if r.phase == StatefulSets.Ready {
        if !r.consoleOk { return true, true, Value(); }
        failed := PerformCmBundlePush(c, r);
        if !failed && !needToPushMasterApps {
          requeue := false;
        }
      }
      saved := Value();
    }
  }
}
