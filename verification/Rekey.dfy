/**
 Re-keying an indexer cluster after its namespace secret changes: ApplyIdxcSecret, statement by
 statement, over a cluster in which every call may be refused, or be carried out and still fail.
 */
module Rekey {
  import opened Wrappers

  datatype Call =
    | ReadNamespaceSecret
    | ReadPodSecret(i: nat)
    | EnableMaintenance
    | DisableMaintenance
    | SetKey(i: nat)
    | Restart(i: nat)
    | ReadSecret(name: string)
    | WriteSecret(name: string)
    | MakeSecret(name: string)

  /** A call made, how it went, and whether the cluster was in maintenance mode when it was made. */
  datatype Entry = Entry(call: Call, fate: Fate, inMaintenance: bool)

  /**
   The namespace secret (resource version, indexer key, and the default.yml made from its tokens), the
   secret each indexer pod mounts, the key and the default.yml each secret holds, the cluster master's
   maintenance mode, and, as history, the calls made and the indexers restarted with the operator seeing
   the restart succeed, as often as that happened.
   */
  datatype World = World(
    version: string,
    key: string,
    defaults: string,
    mounted: seq<string>,
    secrets: map<string, string>,
    ymls: map<string, string>,
    maintenance: bool,
    log: seq<Entry>,
    restarted: multiset<nat>)

  /** The CR's status: what the operator remembers between reconciles. */
  datatype Status = Status(changed: seq<bool>, passwords: map<string, bool>, maintenance: bool, version: string)

  /** The secret holds what is made from the namespace secret. */
  function Filled(w: World, name: string): World {
    w.(secrets := w.secrets[name := w.key], ymls := w.ymls[name := w.defaults])
  }

  /** Makes a call: its effect unless refused, and its entry in the log. */
  function Do(w: World, call: Call, fate: Fate): World {
    var logged := w.(log := w.log + [Entry(call, fate, w.maintenance)]);
    if fate.Refused? then logged
    else match call
      case EnableMaintenance => logged.(maintenance := true)
      case DisableMaintenance => logged.(maintenance := false)
      case WriteSecret(name) => if name in w.secrets then Filled(logged, name) else logged
      // creating a secret that exists leaves it alone, and passes for success
      case MakeSecret(name) => if name in w.secrets then logged else Filled(logged, name)
      case Restart(i) => if fate.Acked? then logged.(restarted := w.restarted + multiset{i}) else logged
      case _ => logged
  }

  /** The API server, the cluster master and the indexers; `fates(k)` decides the k-th call. */
  class Cluster {
    const fates: nat -> Fate
    var w: World

    constructor (fates: nat -> Fate, w: World)
      ensures this.fates == fates && this.w == w
    {
      this.fates, this.w := fates, w;
    }

    method Send(call: Call) returns (ok: bool)
      modifies this
      ensures w == Do(old(w), call, fates(|old(w).log|))
      ensures ok == fates(|old(w).log|).Acked?
    {
      var fate := fates(|w.log|);
      w := Do(w, call, fate);
      return fate.Acked?;
    }
  }

  predicate Readable(w: World, i: nat) {
    i < |w.mounted| && w.mounted[i] in w.secrets
  }

  /** Pod `i` mounts a secret whose key is not the namespace secret's. */
  predicate Stale(w: World, i: nat) {
    Readable(w, i) && w.secrets[w.mounted[i]] != w.key
  }

  predicate Flagged(st: Status, i: nat) {
    i < |st.changed| && st.changed[i]
  }

  function Flag(changed: seq<bool>, i: nat): seq<bool> {
    if i < |changed| then changed[i := true] else changed + [true]
  }

  /** A pass over something: the state it leaves, and whether it returned an error. */
  datatype Pass = Pass(st: Status, w: World, failed: bool)

  /** Changing the key of indexer `i` and restarting it. */
  function RekeyPod(st: Status, w: World, i: nat, fates: nat -> Fate): Pass
    requires i < |w.mounted|
  {
    var w1 := Do(w, SetKey(i), fates(|w.log|));
    if !fates(|w.log|).Acked? then Pass(st, w1, true)
    else
      var w2 := Do(w1, Restart(i), fates(|w1.log|));
      if !fates(|w1.log|).Acked? then Pass(st, w2, true)
      else Pass(st.(passwords := st.passwords[w.mounted[i] := true], changed := Flag(st.changed, i)), w2, false)
  }

  /** Maintenance mode is asked for before the first re-key. */
  function EnterMaintenance(st: Status, w: World, fates: nat -> Fate): Pass {
    if st.changed != [] || st.maintenance then Pass(st, w, false)
    else
      var w1 := Do(w, EnableMaintenance, fates(|w.log|));
      if fates(|w.log|).Acked? then Pass(st.(maintenance := true), w1, false) else Pass(st, w1, true)
  }

  function VisitPod(st: Status, w: World, i: nat, fates: nat -> Fate): Pass {
    var w1 := Do(w, ReadPodSecret(i), fates(|w.log|));
    if !fates(|w.log|).Acked? || !Readable(w, i) then Pass(st, w1, true)
    else if !Stale(w, i) then Pass(st, w1, false)
    else
      var entered := EnterMaintenance(st, w1, fates);
      if entered.failed || Flagged(entered.st, i) then entered
      else RekeyPod(entered.st, entered.w, i, fates)
  }

  function VisitPods(st: Status, w: World, i: nat, replicas: nat, fates: nat -> Fate): Pass
    decreases replicas - i
  {
    if i >= replicas then Pass(st, w, false)
    else
      var one := VisitPod(st, w, i, fates);
      if one.failed then one else VisitPods(one.st, one.w, i + 1, replicas, fates)
  }

  /** ApplySecret: if its own read fails, it tries to create the secret. */
  function WriteBack(st: Status, w: World, name: string, fates: nat -> Fate): Pass {
    var w1 := Do(w, ReadSecret(name), fates(|w.log|));
    var found := fates(|w.log|).Acked? && name in w.secrets;
    var w2 := Do(w1, if found then WriteSecret(name) else MakeSecret(name), fates(|w1.log|));
    Pass(st, w2, !fates(|w1.log|).Acked?)
  }

  /** Writes the new key and default.yml into one recorded secret, unless that has been done. */
  function WriteOne(st: Status, w: World, name: string, fates: nat -> Fate): Pass {
    if !(name in st.passwords && st.passwords[name]) then Pass(st, w, false)
    else
      var w1 := Do(w, ReadSecret(name), fates(|w.log|));
      if !fates(|w.log|).Acked? || name !in w.secrets then Pass(st, w1, true)
      else
        var w2 := Do(w1, ReadNamespaceSecret, fates(|w1.log|));
        if !fates(|w1.log|).Acked? then Pass(st, w2, true)
        else
          var applied := WriteBack(st, w2, name, fates);
          if applied.failed then applied
          else Pass(st.(passwords := st.passwords[name := false]), applied.w, false)
  }

  /** Writes the recorded secrets in the order in which the map happens to be walked. */
  function WriteSecrets(st: Status, w: World, order: seq<string>, fates: nat -> Fate): Pass
    decreases |order|
  {
    if order == [] then Pass(st, w, false)
    else
      var one := WriteOne(st, w, order[0], fates);
      if one.failed then one else WriteSecrets(one.st, one.w, order[1..], fates)
  }

  /** `order` walks the recorded secrets, or as many of them as were reached before an error. */
  function Apply(st: Status, w: World, replicas: nat, order: seq<string>, fates: nat -> Fate): Pass {
    var w1 := Do(w, ReadNamespaceSecret, fates(|w.log|));
    if !fates(|w.log|).Acked? then Pass(st, w1, true)
    else if st.version == "" then Pass(st.(version := w.version), w1, false)
    else if st.version == w.version then Pass(st, w1, false)
    else
      var pods := VisitPods(st, w1, 0, replicas, fates);
      if pods.failed then pods else WriteSecrets(pods.st, pods.w, order, fates)
  }

  /** The end of a reconcile that reports Ready: leave maintenance mode, then forget the flags. */
  function ReadyBranch(st: Status, w: World, fates: nat -> Fate): Pass {
    var fate := fates(|w.log|);
    var w1 := if st.changed == [] then w else Do(w, DisableMaintenance, fate);
    if st.changed != [] && !fate.Acked? then Pass(st, w1, true)
    else Pass(Status([], map[], st.maintenance && st.changed == [], w.version), w1, false)
  }

  /** The CR, whose status the code updates in place. */
  class IndexerCr {
    var indexerSecretChanged: seq<bool>
    var idxcPasswordChangedSecrets: map<string, bool>
    var maintenanceMode: bool
    var namespaceSecretResourceVersion: string

    constructor (st: Status)
      ensures Value() == st
    {
      indexerSecretChanged, idxcPasswordChangedSecrets := st.changed, st.passwords;
      maintenanceMode, namespaceSecretResourceVersion := st.maintenance, st.version;
    }

    function Value(): Status
      reads this
    {
      Status(indexerSecretChanged, idxcPasswordChangedSecrets, maintenanceMode, namespaceSecretResourceVersion)
    }

    method SetClusterMaintenanceMode(c: Cluster, enable: bool) returns (failed: bool)
      modifies this`maintenanceMode, c
      ensures var fate := c.fates(|old(c.w).log|);
        && c.w == Do(old(c.w), if enable then EnableMaintenance else DisableMaintenance, fate)
        && failed == !fate.Acked?
        && maintenanceMode == if failed then old(maintenanceMode) else enable
    {
      var ok := c.Send(if enable then EnableMaintenance else DisableMaintenance);
      if !ok { return true; }
      maintenanceMode := enable;
      return false;
    }

    /** The body of the loop over the indexer pods. */
    method ApplyToPod(c: Cluster, i: nat) returns (failed: bool)
      modifies this, c
      ensures Pass(Value(), c.w, failed) == VisitPod(old(Value()), old(c.w), i, c.fates)
    {
      ghost var before := c.w;
      var ok := c.Send(ReadPodSecret(i));
      if !ok || !Readable(c.w, i) { return true; }
      var podSecret := c.w.mounted[i];
      if c.w.secrets[podSecret] == c.w.key { return false; }
      if |indexerSecretChanged| == 0 && !maintenanceMode {
        var err := SetClusterMaintenanceMode(c, true);
        if err { return true; }
      }
      if i < |indexerSecretChanged| {
        if indexerSecretChanged[i] { return false; }
      }
      failed := RekeyAndRestart(c, i, podSecret);
    }

    method RekeyAndRestart(c: Cluster, i: nat, podSecret: string) returns (failed: bool)
      requires i < |c.w.mounted| && c.w.mounted[i] == podSecret
      modifies this, c
      ensures Pass(Value(), c.w, failed) == RekeyPod(old(Value()), old(c.w), i, c.fates)
    {
      var keyed := c.Send(SetKey(i));
      if !keyed { return true; }
      var restarted := c.Send(Restart(i));
      if !restarted { return true; }
      idxcPasswordChangedSecrets := idxcPasswordChangedSecrets[podSecret := true];
      if i < |indexerSecretChanged| {
        indexerSecretChanged := indexerSecretChanged[i := true];
      } else {
        indexerSecretChanged := indexerSecretChanged + [true];
      }
      return false;
    }

    /** `order` records the order in which the map was walked. */
    method ApplyIdxcSecret(c: Cluster, replicas: nat) returns (failed: bool, ghost order: seq<string>)
      modifies this, c
      ensures Pass(Value(), c.w, failed) == Apply(old(Value()), old(c.w), replicas, order, c.fates)
      ensures !failed && old(Value()).version != "" && old(Value()).version != old(c.w).version ==>
        forall name <- idxcPasswordChangedSecrets :: !idxcPasswordChangedSecrets[name]
    {
      order := [];
      var ok := c.Send(ReadNamespaceSecret);
      if !ok { return true, []; }
      if namespaceSecretResourceVersion == "" {
        namespaceSecretResourceVersion := c.w.version;
        return false, [];
      } else if namespaceSecretResourceVersion == c.w.version {
        return false, [];
      }
      failed := ApplyToPods(c, replicas);
      if failed { return; }
      failed, order := ApplyToSecrets(c);
    }

    method FinishReady(c: Cluster) returns (failed: bool)
      modifies this, c
      ensures Pass(Value(), c.w, failed) == ReadyBranch(old(Value()), old(c.w), c.fates)
    {
      if |indexerSecretChanged| > 0 {
        failed := SetClusterMaintenanceMode(c, false);
        if failed { return true; }
      }
      indexerSecretChanged := [];
      namespaceSecretResourceVersion := c.w.version;
      idxcPasswordChangedSecrets := map[];
      return false;
    }

    method ApplyToPods(c: Cluster, replicas: nat) returns (failed: bool)
      modifies this, c
      ensures Pass(Value(), c.w, failed) == VisitPods(old(Value()), old(c.w), 0, replicas, c.fates)
    {
      ghost var run := VisitPods(Value(), c.w, 0, replicas, c.fates);
      var i := 0;
      while i < replicas
        invariant 0 <= i <= replicas
        invariant run == VisitPods(Value(), c.w, i, replicas, c.fates)
      {
        failed := ApplyToPod(c, i);
        if failed { return true; }
        i := i + 1;
      }
      return false;
    }

    method ApplySecret(c: Cluster, name: string) returns (failed: bool)
      modifies c
      ensures Pass(Value(), c.w, failed) == WriteBack(Value(), old(c.w), name, c.fates)
    {
      var stored := name in c.w.secrets;
      var found := c.Send(ReadSecret(name));
      var ok := c.Send(if found && stored then WriteSecret(name) else MakeSecret(name));
      return !ok;
    }

    method ApplyToSecret(c: Cluster, name: string) returns (failed: bool)
      requires name in idxcPasswordChangedSecrets
      modifies this, c
      ensures Pass(Value(), c.w, failed) == WriteOne(old(Value()), old(c.w), name, c.fates)
    {
      if idxcPasswordChangedSecrets[name] {
        var found := name in c.w.secrets;
        var ok := c.Send(ReadSecret(name));
        if !ok || !found { return true; }
        ok := c.Send(ReadNamespaceSecret);
        if !ok { return true; }
        failed := ApplySecret(c, name);
        if failed { return true; }
        idxcPasswordChangedSecrets := idxcPasswordChangedSecrets[name := false];
      }
      return false;
    }

    method ApplyToSecrets(c: Cluster) returns (failed: bool, ghost order: seq<string>)
      modifies this, c
      ensures Pass(Value(), c.w, failed) == WriteSecrets(old(Value()), old(c.w), order, c.fates)
      ensures !failed ==> forall name <- idxcPasswordChangedSecrets :: !idxcPasswordChangedSecrets[name]
    {
      order := [];
      var todo := idxcPasswordChangedSecrets.Keys;
      while todo != {}
        invariant todo <= idxcPasswordChangedSecrets.Keys
        invariant forall name <- idxcPasswordChangedSecrets :: name !in todo ==> !idxcPasswordChangedSecrets[name]
        invariant Pass(Value(), c.w, false) == WriteSecrets(old(Value()), old(c.w), order, c.fates)
        decreases |todo|
      {
        var name :| name in todo;
        WriteSecretsAppend(old(Value()), old(c.w), order, name, c.fates);
        failed := ApplyToSecret(c, name);
        order := order + [name];
        if failed { return; }
        todo := todo - {name};
      }
      return false, order;
    }
  }

  lemma {:induction false} WriteSecretsAppend(st: Status, w: World, order: seq<string>, name: string,
                                              fates: nat -> Fate)
    requires !WriteSecrets(st, w, order, fates).failed
    ensures var done := WriteSecrets(st, w, order, fates);
      WriteSecrets(st, w, order + [name], fates) == WriteOne(done.st, done.w, name, fates)
    decreases |order|
  {
    if order == [] {
      assert ([] + [name])[1..] == [];
      var one := WriteOne(st, w, name, fates);
    } else {
      var one := WriteOne(st, w, order[0], fates);
      assert (order + [name])[1..] == order[1..] + [name];
      WriteSecretsAppend(one.st, one.w, order[1..], name, fates);
    }
  }

  /** A secret that has been marked as written holds the new key, exactly unless it was not found again to write. */
  lemma WrittenIff(st: Status, w: World, name: string, fates: nat -> Fate)
    requires name in st.passwords && st.passwords[name] && !WriteOne(st, w, name, fates).failed
    ensures var done := WriteOne(st, w, name, fates);
      && name in w.secrets && name in done.w.secrets && !done.st.passwords[name]
      && (done.w.secrets[name] == w.key <==> w.secrets[name] == w.key || fates(|w.log| + 2).Acked?)
      && (fates(|w.log| + 2).Acked? ==>
            done.w.secrets == w.secrets[name := w.key] && done.w.ymls == w.ymls[name := w.defaults])
      && (!fates(|w.log| + 2).Acked? ==> done.w.secrets == w.secrets && done.w.ymls == w.ymls)
  {
  }
}
