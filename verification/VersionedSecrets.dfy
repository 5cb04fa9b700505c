/**
 Versioned copies of the namespace secret: finding the latest, creating the next, trimming the old.
 */
module VersionedSecrets {
  import opened Names
  import opened Decimal
  import opened Wrappers

  const MINIMUM_VERSIONED_SECRETS := 3

  /** A stored secret; only labelled ones are listed. */
  datatype Secret = Secret(data: string, labelled: bool)

  datatype Call = List | Get(name: string) | Create(name: string) | Update(name: string) | Delete(name: string)

  datatype Store = Store(secrets: map<string, Secret>, log: seq<Call>)

  /** A listed secret. */
  datatype Item = Item(name: string, data: string)

  /** Creating, updating or deleting takes effect unless it is refused; creating an existing name has none. */
  function Do(w: Store, call: Call, data: string, fate: Fate): Store {
    var logged := w.(log := w.log + [call]);
    if fate.Refused? then logged
    else match call
      case Create(name) =>
        if name in w.secrets then logged else logged.(secrets := w.secrets[name := Secret(data, true)])
      case Update(name) =>
        if name in w.secrets then logged.(secrets := w.secrets[name := w.secrets[name].(data := data)]) else logged
      case Delete(name) => logged.(secrets := w.secrets - {name})
      case _ => logged
  }

  predicate Qualifies(name: string, identifier: string) {
    GetVersionedSecretVersion(name, identifier).Version?
  }

  function VersionOf(name: string, identifier: string): int {
    var v := GetVersionedSecretVersion(name, identifier);
    if v.Version? then v.version else -1
  }

  /** `items` lists exactly the labelled secrets. */
  ghost predicate Lists(items: seq<Item>, secrets: map<string, Secret>) {
    && (forall item <- items :: item.name in secrets && secrets[item.name] == Secret(item.data, true))
    && (forall name <- secrets :: secrets[name].labelled ==> Item(name, secrets[name].data) in items)
  }

  /** `latest` is a listed secret of the highest version, or None when there is no version at all. */
  ghost predicate IsLatest(items: seq<Item>, identifier: string, latest: Option<Item>) {
    match latest
    case None => forall item <- items :: !Qualifies(item.name, identifier)
    case Some(it) =>
      && it in items && Qualifies(it.name, identifier)
      && forall item <- items :: VersionOf(item.name, identifier) <= VersionOf(it.name, identifier)
  }

  /** `found` maps each version that occurs to a secret of that version. */
  ghost predicate Indexes(items: seq<Item>, identifier: string, found: map<nat, Item>) {
    && (forall v <- found ::
          found[v] in items && Qualifies(found[v].name, identifier) && VersionOf(found[v].name, identifier) == v)
    && (forall item <- items :: Qualifies(item.name, identifier) ==> VersionOf(item.name, identifier) in found)
  }

  /** GetExistingLatestVersionedSecret over the listing. */
  method FindLatest(items: seq<Item>, identifier: string) returns (latest: Option<Item>, version: int,
                    found: map<nat, Item>)
    ensures IsLatest(items, identifier, latest)
    ensures version == if latest.Some? then VersionOf(latest.value.name, identifier) else -1
    ensures latest.Some? ==> 0 < version <= MAX_INT64
    ensures Indexes(items, identifier, found)
  {
    latest, version, found := None, -1, map[];
    for i := 0 to |items|
      invariant IsLatest(items[..i], identifier, latest)
      invariant version == if latest.Some? then VersionOf(latest.value.name, identifier) else -1
      invariant latest.Some? ==> 0 < version <= MAX_INT64
      invariant Indexes(items[..i], identifier, found)
    {
      assert items[..i + 1] == items[..i] + [items[i]];
      var v := GetVersionedSecretVersion(items[i].name, identifier);
      if v.Version? {
        found := found[v.version := items[i]];
        if v.version > version {
          latest, version := Some(items[i]), v.version;
        }
      }
    }
    assert items[..|items|] == items;
  }

  /** What a call hands back: a secret or nil, and whether it reports an error. */
  datatype Result = Result(secret: Option<Item>, failed: bool)

  /** ApplySplunkSecret with the data given: update the secret of that name, or create it. */
  function ApplySplunkSecret(w: Store, name: string, data: string, fates: nat -> Fate): (Store, Result) {
    var w1 := Do(w, Get(name), "", fates(|w.log|));
    var got := fates(|w.log|).Acked? && name in w.secrets;
    if got && w.secrets[name].data == data then (w1, Result(Some(Item(name, data)), false))
    else
      var fate := fates(|w1.log|);
      var w2 := Do(w1, if got then Update(name) else Create(name), data, fate);
      // Acked covers the AlreadyExists reply, which the code takes for success
      (w2, if fate.Acked? then Result(Some(Item(name, data)), false) else Result(None, true))
  }

  /** The numeral of the version after `v`: 64-bit addition wraps around. */
  function NextNumeral(v: nat): string {
    if v < MAX_INT64 then Itoa(v + 1) else "-" + Itoa(MAX_INT64 as nat + 1)
  }

  function NextName(identifier: string, latest: Option<Item>): string {
    VersionedSecretName(identifier,
      if latest.Some? && Qualifies(latest.value.name, identifier)
      then NextNumeral(VersionOf(latest.value.name, identifier)) else "1")
  }

  /** GetLatestVersionedSecret, once the readable data and the latest version are known. */
  function GetLatest(w: Store, identifier: string, data: string, latest: Option<Item>,
                     fates: nat -> Fate): (Store, Result) {
    if latest.Some? && latest.value.data == data then (w, Result(latest, false))
    else
      var (w1, r) := ApplySplunkSecret(w, NextName(identifier, latest), data, fates);
      // with no version yet, the error of creating the first one is dropped
      (w1, if latest.None? then Result(r.secret, false) else r)
  }

  /** Deletes the named secrets one by one, up to the first failure. */
  function DeleteAll(w: Store, names: seq<string>, fates: nat -> Fate): (Store, bool)
    decreases |names|
  {
    if names == [] then (w, false)
    else
      var w1 := Do(w, Delete(names[0]), "", fates(|w.log|));
      if !fates(|w.log|).Acked? then (w1, true) else DeleteAll(w1, names[1..], fates)
  }

  /** The latest version in the store itself. */
  ghost predicate LatestIn(secrets: map<string, Secret>, identifier: string, latest: Option<Item>) {
    match latest
    case None => forall name <- secrets :: secrets[name].labelled ==> !Qualifies(name, identifier)
    case Some(it) =>
      && it.name in secrets && secrets[it.name] == Secret(it.data, true) && Qualifies(it.name, identifier)
      && forall name <- secrets :: secrets[name].labelled ==>
           VersionOf(name, identifier) <= VersionOf(it.name, identifier)
  }

  lemma ListedLatest(items: seq<Item>, secrets: map<string, Secret>, identifier: string, latest: Option<Item>)
    requires Lists(items, secrets) && IsLatest(items, identifier, latest)
    ensures LatestIn(secrets, identifier, latest)
  {
    forall name | name in secrets && secrets[name].labelled
      ensures Item(name, secrets[name].data) in items
    {
    }
  }

  lemma {:induction false} DeleteAllAppend(w: Store, names: seq<string>, name: string, fates: nat -> Fate)
    requires !DeleteAll(w, names, fates).1
    ensures var w1 := DeleteAll(w, names, fates).0;
      DeleteAll(w, names + [name], fates)
        == (Do(w1, Delete(name), "", fates(|w1.log|)), !fates(|w1.log|).Acked?)
    decreases |names|
  {
    if names == [] {
      assert ([] + [name])[1..] == [];
    } else {
      assert (names + [name])[1..] == names[1..] + [name];
      DeleteAllAppend(Do(w, Delete(names[0]), "", fates(|w.log|)), names[1..], name, fates);
    }
  }

  /** A namespace's secrets behind the API; `fates(k)` decides the k-th call. */
  class Namespace {
    const fates: nat -> Fate
    var w: Store

    constructor (fates: nat -> Fate, w: Store)
      ensures this.fates == fates && this.w == w
    {
      this.fates, this.w := fates, w;
    }

    method Send(call: Call, data: string) returns (fate: Fate)
      modifies this
      ensures w == Do(old(w), call, data, fates(|old(w).log|))
      ensures fate == fates(|old(w).log|)
    {
      fate := fates(|w.log|);
      w := Do(w, call, data, fate);
    }

    /** Lists the labelled secrets in some order; None when the request fails. */
    method ListSecrets() returns (items: Option<seq<Item>>)
      modifies this
      ensures w == old(w).(log := old(w).log + [List])
      ensures items.Some? <==> fates(|old(w).log|).Acked?
      ensures items.Some? ==> Lists(items.value, w.secrets)
    {
      var fate := Send(List, "");
      if !fate.Acked? { return None; }
      var listed: seq<Item> := [];
      var todo := w.secrets.Keys;
      while todo != {}
        invariant todo <= w.secrets.Keys
        invariant forall item <- listed :: item.name in w.secrets && w.secrets[item.name] == Secret(item.data, true)
        invariant forall name <- w.secrets :: name !in todo && w.secrets[name].labelled ==>
          Item(name, w.secrets[name].data) in listed
        decreases |todo|
      {
        var name :| name in todo;
        if w.secrets[name].labelled {
          listed := listed + [Item(name, w.secrets[name].data)];
        }
        todo := todo - {name};
      }
      return Some(listed);
    }

    /** Also returns whether the listing came back: without it the code proceeds as if there were none. */
    method GetExistingLatestVersionedSecret(identifier: string)
      returns (latest: Option<Item>, version: int, found: map<nat, Item>, ghost listed: bool)
      modifies this
      ensures w == old(w).(log := old(w).log + [List])
      ensures listed == fates(|old(w).log|).Acked?
      ensures version == if latest.Some? then VersionOf(latest.value.name, identifier) else -1
      ensures latest.Some? ==> 0 < version <= MAX_INT64
      ensures if listed then LatestIn(w.secrets, identifier, latest) && FoundIn(w.secrets, identifier, found)
              else latest == None && found == map[]
    {
      var items := ListSecrets();
      if items.None? { return None, -1, map[], false; }
      latest, version, found := FindLatest(items.value, identifier);
      ListedLatest(items.value, w.secrets, identifier, latest);
      IndexesStore(items.value, w.secrets, identifier, found);
      listed := true;
    }

    /** `data` is the readable namespace data, or None when it cannot be had. */
    method GetLatestVersionedSecret(identifier: string, data: Option<string>)
      returns (result: Result, ghost latest: Option<Item>, ghost listed: bool)
      modifies this
      ensures data.None? ==> result == Result(None, true) && w.secrets == old(w).secrets
      ensures data.Some? ==>
        && (w, result) == GetLatest(old(w).(log := old(w).log + [List]), identifier, data.value, latest, fates)
        && listed == fates(|old(w).log|).Acked?
        && (if listed then LatestIn(old(w).secrets, identifier, latest) else latest == None)
    {
      latest, listed := None, false;
      if data.None? { return Result(None, true), None, false; }
      var existing, version, _, l := GetExistingLatestVersionedSecret(identifier);
      latest, listed := existing, l;
      if version == -1 {
        var r := ApplySplunkSecretData(VersionedSecretName(identifier, "1"), data.value);
        return Result(r.secret, false), latest, listed;
      }
      if data.value != existing.value.data {
        result := ApplySplunkSecretData(VersionedSecretName(identifier, NextNumeral(version)), data.value);
        return result, latest, listed;
      }
      return Result(existing, false), latest, listed;
    }

    method ApplySplunkSecretData(name: string, data: string) returns (result: Result)
      modifies this
      ensures (w, result) == ApplySplunkSecret(old(w), name, data, fates)
    {
      var found := name in w.secrets;
      var got := Send(Get(name), "");
      if !got.Acked? || !found {
        var created := Send(Create(name), data);
        if !created.Acked? { return Result(None, true); }
      } else if w.secrets[name].data != data {
        var updated := Send(Update(name), data);
        if !updated.Acked? { return Result(None, true); }
      }
      return Result(Some(Item(name, data)), false);
    }

    /** `names` are the secrets deleted, or tried, in order. */
    method RemoveUnwantedSecrets(identifier: string)
      returns (failed: bool, ghost names: seq<string>, ghost found: map<nat, Item>, ghost version: int)
      modifies this
      ensures (w, failed) == DeleteAll(old(w).(log := old(w).log + [List]), names, fates)
      ensures version == -1 ==> names == []
      ensures version != -1 ==>
        && FoundIn(old(w).secrets, identifier, found) && IsTop(found, version)
        && (|found| <= MINIMUM_VERSIONED_SECRETS ==> names == [])
        && (forall name <- names :: IsOld(found, version, name))
        && (!failed && |found| > MINIMUM_VERSIONED_SECRETS ==> OldAreNamed(found, {}, version, names))
      ensures version == -1 && fates(|old(w).log|).Acked? ==> LatestIn(old(w).secrets, identifier, None)
    {
      var latest, latestVersion, list, _ := GetExistingLatestVersionedSecret(identifier);
      if latestVersion == -1 || |list| <= MINIMUM_VERSIONED_SECRETS {
        return false, [], list, latestVersion;
      }
      failed, names := DeleteOld(list, latestVersion);
      found, version := list, latestVersion;
    }

    /** Walks the versions in some order and deletes those that are too old. */
    method DeleteOld(list: map<nat, Item>, latestVersion: int) returns (failed: bool, ghost names: seq<string>)
      modifies this
      ensures (w, failed) == DeleteAll(old(w), names, fates)
      ensures forall name <- names :: IsOld(list, latestVersion, name)
      ensures !failed ==> OldAreNamed(list, {}, latestVersion, names)
    {
      names := [];
      var todo := list.Keys;
      while todo != {}
        invariant todo <= list.Keys
        invariant (w, false) == DeleteAll(old(w), names, fates)
        invariant forall name <- names :: IsOld(list, latestVersion, name)
        invariant OldAreNamed(list, todo, latestVersion, names)
        decreases |todo|
      {
        var v :| v in todo;
        todo := todo - {v};
        if latestVersion - v >= MINIMUM_VERSIONED_SECRETS {
          DeleteAllAppend(old(w), names, list[v].name, fates);
          var fate := Send(Delete(list[v].name), "");
          names := names + [list[v].name];
          if !fate.Acked? { return true, names; }
        }
      }
      return false, names;
    }
  }

  ghost predicate IsOld(found: map<nat, Item>, version: int, name: string) {
    exists v :: v in found && found[v].name == name && version - v >= MINIMUM_VERSIONED_SECRETS
  }

  /** Every old version is named, except perhaps those still to come. */
  ghost predicate OldAreNamed(found: map<nat, Item>, todo: set<int>, version: int, names: seq<string>) {
    forall v <- found :: v !in todo && version - v >= MINIMUM_VERSIONED_SECRETS ==> found[v].name in names
  }

  /** `found` holds one labelled secret for each version that occurs. */
  ghost predicate FoundIn(secrets: map<string, Secret>, identifier: string, found: map<nat, Item>) {
    && (forall v <- found ::
          && found[v].name in secrets && secrets[found[v].name] == Secret(found[v].data, true)
          && Qualifies(found[v].name, identifier) && VersionOf(found[v].name, identifier) == v)
    && (forall name <- secrets :: secrets[name].labelled && Qualifies(name, identifier) ==>
          VersionOf(name, identifier) in found)
  }

  ghost predicate IsTop(found: map<nat, Item>, version: int) {
    version in found && forall v <- found :: v <= version
  }

  lemma IndexesStore(items: seq<Item>, secrets: map<string, Secret>, identifier: string, found: map<nat, Item>)
    requires Lists(items, secrets) && Indexes(items, identifier, found)
    ensures FoundIn(secrets, identifier, found)
  {
    forall name | name in secrets && secrets[name].labelled && Qualifies(name, identifier)
      ensures VersionOf(name, identifier) in found
    {
      assert Item(name, secrets[name].data) in items;
    }
  }
}
