/**
 The versions of one owner's secret over whole runs: the namespace secret changing, the latest version
 being fetched, with or without the listing coming back, and old versions being trimmed, in any order and
 with any call failing.
 */
module SecretHistory {
  import opened Wrappers
  import opened Decimal
  import opened Names
  import opened VersionedSecrets

  /** Every stored secret named as a version carries the labels it is listed by. */
  ghost predicate NoStrays(secrets: map<string, Secret>, identifier: string) {
    forall name <- secrets :: Qualifies(name, identifier) ==> secrets[name].labelled
  }

  /** Every stored version is named by its plain numeral. */
  ghost predicate Canonical(secrets: map<string, Secret>, identifier: string) {
    forall name <- secrets :: Qualifies(name, identifier) ==>
      VersionOf(name, identifier) > 0 && name == VersionedSecretName(identifier, Itoa(VersionOf(name, identifier)))
  }

  function LatestVersion(identifier: string, latest: Option<Item>): int {
    if latest.Some? then VersionOf(latest.value.name, identifier) else 0
  }

  /** The next version's name is new, and reads back as one more than the latest. */
  lemma NextIsNew(secrets: map<string, Secret>, identifier: string, latest: Option<Item>)
    requires NoStrays(secrets, identifier) && LatestIn(secrets, identifier, latest)
    requires LatestVersion(identifier, latest) < MAX_INT64
    ensures var name := NextName(identifier, latest);
      && name !in secrets
      && Qualifies(name, identifier) && VersionOf(name, identifier) == LatestVersion(identifier, latest) + 1
      && name == VersionedSecretName(identifier, Itoa(VersionOf(name, identifier)))
  {
    assert Itoa(1) == "1";
    VersionRoundTrip(identifier, LatestVersion(identifier, latest) + 1);
  }

  /**
   Fetching the latest version: nothing is written if it already holds the current data; otherwise the
   only possible write is the next version, with the current data, and it does happen if the calls are
   acknowledged. Whatever is returned holds the current data, and is stored.
   */
  lemma FetchEffect(w: Store, identifier: string, data: string, latest: Option<Item>, fates: nat -> Fate)
    requires NoStrays(w.secrets, identifier) && LatestIn(w.secrets, identifier, latest)
    requires LatestVersion(identifier, latest) < MAX_INT64
    ensures var (w1, r) := GetLatest(w, identifier, data, latest, fates);
      var name := NextName(identifier, latest);
      && (latest.Some? && latest.value.data == data ==> w1 == w && r == Result(latest, false))
      && (!(latest.Some? && latest.value.data == data) ==>
            && name !in w.secrets
            && (w1.secrets == w.secrets || w1.secrets == w.secrets[name := Secret(data, true)])
            && (r.secret.Some? ==> r.secret.value.name == name && name in w1.secrets)
            && (fates(|w.log|).Acked? && fates(|w.log| + 1).Acked? ==> r.secret.Some? && !r.failed))
      && (r.secret.Some? ==> r.secret.value.data == data && w1.secrets[r.secret.value.name] == Secret(data, true))
  {
    NextIsNew(w.secrets, identifier, latest);
  }

  datatype Event =
    | SetData(data: string)
    | Fetch(latest: Option<Item>, fates: nat -> Fate)
    | FetchUnlisted(fates: nat -> Fate)
    | Trim(names: seq<string>, found: map<nat, Item>, version: int, fates: nat -> Fate)

  /** The store, the current readable data, and the numbers of the versions created so far, in order. */
  datatype History = History(w: Store, data: string, created: seq<int>)

  /** What the code guarantees of an event's parameters when its listing succeeds (see VersionedSecrets.Namespace). */
  ghost predicate Happens(h: History, identifier: string, e: Event) {
    match e
    case SetData(_) => true
    case Fetch(latest, _) => LatestIn(h.w.secrets, identifier, latest) && LatestVersion(identifier, latest) < MAX_INT64
    case FetchUnlisted(_) => true
    case Trim(names, found, version, _) =>
      && FoundIn(h.w.secrets, identifier, found) && IsTop(found, version)
      && (|found| <= MINIMUM_VERSIONED_SECRETS ==> names == [])
      && forall name <- names :: IsOld(found, version, name)
  }

  /** The trim got to the end without an error. */
  ghost predicate Completes(h: History, e: Event)
    requires e.Trim?
  {
    && !DeleteAll(h.w, e.names, e.fates).1
    && (|e.found| > MINIMUM_VERSIONED_SECRETS ==> OldAreNamed(e.found, {}, e.version, e.names))
  }

  function Fetched(h: History, identifier: string, latest: Option<Item>, fates: nat -> Fate): History {
    var w1 := GetLatest(h.w, identifier, h.data, latest, fates).0;
    var name := NextName(identifier, latest);
    History(w1, h.data,
      if name in w1.secrets && name !in h.w.secrets then h.created + [VersionOf(name, identifier)] else h.created)
  }

  function Next(h: History, identifier: string, e: Event): History {
    match e
    case SetData(data) => h.(data := data)
    case Fetch(latest, fates) => Fetched(h, identifier, latest, fates)
    case FetchUnlisted(fates) => Fetched(h, identifier, None, fates)
    case Trim(names, _, _, fates) => h.(w := DeleteAll(h.w, names, fates).0)
  }

  function Run(h: History, identifier: string, events: seq<Event>): History {
    if events == [] then h
    else Next(Run(h, identifier, events[..|events| - 1]), identifier, events[|events| - 1])
  }

  /**
   A fetch whose listing failed writes version 1 as if there were none. That does no harm if version 1 is
   stored and keeps its data, or if there never was a version, or if nothing comes of the write.
   */
  predicate Harmless(h: History, identifier: string, fates: nat -> Fate) {
    var first, n := VersionedSecretName(identifier, "1"), |h.w.log|;
    if first in h.w.secrets then h.w.secrets[first].data == h.data || !fates(n).Acked? || fates(n + 1).Refused?
    else h.created == [] || fates(n + 1).Refused?
  }

  /** Every event is possible, and every fetch without a listing harmless. */
  ghost predicate AllHappen(h: History, identifier: string, events: seq<Event>) {
    forall k :: 0 <= k < |events| ==> Occurs(Run(h, identifier, events[..k]), identifier, events[k])
  }

  ghost predicate Occurs(h: History, identifier: string, e: Event) {
    Happens(h, identifier, e) && (e.FetchUnlisted? ==> Harmless(h, identifier, e.fates))
  }

  /** Some stored version is numbered `v` or higher. */
  ghost predicate ReachesTo(secrets: map<string, Secret>, identifier: string, v: int) {
    exists name :: name in secrets && Qualifies(name, identifier) && VersionOf(name, identifier) >= v
  }

  ghost predicate Increasing(created: seq<int>) {
    forall i, j :: 0 <= i < j < |created| ==> created[i] < created[j]
  }

  ghost predicate Sound(h: History, identifier: string) {
    && NoStrays(h.w.secrets, identifier) && Canonical(h.w.secrets, identifier)
    && Increasing(h.created)
    && (forall v <- h.created :: v > 0)
    && forall v <- h.created :: ReachesTo(h.w.secrets, identifier, v)
  }

  /** Secrets only disappear or appear; none that stays is altered. */
  predicate Unaltered(before: map<string, Secret>, after: map<string, Secret>) {
    forall name <- before :: name in after ==> after[name] == before[name]
  }

  lemma {:induction false} DeleteAllEffect(w: Store, names: seq<string>, fates: nat -> Fate)
    ensures var (w1, failed) := DeleteAll(w, names, fates);
      && (forall name <- w1.secrets :: name in w.secrets && w1.secrets[name] == w.secrets[name])
      && (forall name <- w.secrets :: name !in names ==> name in w1.secrets)
      && (!failed ==> forall name <- names :: name !in w1.secrets)
    decreases |names|
  {
    if names != [] {
      DeleteAllEffect(Do(w, Delete(names[0]), "", fates(|w.log|)), names[1..], fates);
    }
  }

  /** The latest version is never among those deleted. */
  lemma {:induction false} TopIsKept(h: History, identifier: string, e: Event)
    requires Sound(h, identifier) && e.Trim? && Happens(h, identifier, e)
    ensures e.found[e.version].name in Next(h, identifier, e).w.secrets
  {
    DeleteAllEffect(h.w, e.names, e.fates);
    var top := e.found[e.version].name;
    forall name | name in e.names ensures name != top {
      var v :| v in e.found && e.found[v].name == name && e.version - v >= MINIMUM_VERSIONED_SECRETS;
      assert VersionOf(name, identifier) == v;
    }
  }

  lemma TrimIsSound(h: History, identifier: string, e: Event)
    requires Sound(h, identifier) && e.Trim? && Happens(h, identifier, e)
    ensures Sound(Next(h, identifier, e), identifier)
  {
    DeleteAllEffect(h.w, e.names, e.fates);
    TopIsKept(h, identifier, e);
    var h1 := Next(h, identifier, e);
    var top := e.found[e.version].name;
    forall v | v in h.created ensures ReachesTo(h1.w.secrets, identifier, v) {
      var name :| name in h.w.secrets && Qualifies(name, identifier) && VersionOf(name, identifier) >= v;
      assert VersionOf(name, identifier) in e.found;
      assert VersionOf(top, identifier) >= v;
    }
  }

  /** Everything created so far is stored or was overtaken, so the next version is past it all. */
  lemma NextIsPast(h: History, identifier: string, latest: Option<Item>)
    requires Sound(h, identifier) && LatestIn(h.w.secrets, identifier, latest)
    requires LatestVersion(identifier, latest) < MAX_INT64
    ensures forall v <- h.created :: v < VersionOf(NextName(identifier, latest), identifier)
  {
    NextIsNew(h.w.secrets, identifier, latest);
    forall v | v in h.created ensures v < VersionOf(NextName(identifier, latest), identifier) {
      var name :| name in h.w.secrets && Qualifies(name, identifier) && VersionOf(name, identifier) >= v;
    }
  }

  lemma IncreasingAppend(created: seq<int>, v: int)
    requires Increasing(created) && forall u <- created :: u < v
    ensures Increasing(created + [v])
  {
    assert forall i :: 0 <= i < |created| ==> created[i] in created;
  }

  /** Adding the next version to a sound history. */
  lemma AddingIsSound(h: History, identifier: string, latest: Option<Item>, w1: Store)
    requires Sound(h, identifier) && LatestIn(h.w.secrets, identifier, latest)
    requires LatestVersion(identifier, latest) < MAX_INT64
    requires w1.secrets == h.w.secrets[NextName(identifier, latest) := Secret(h.data, true)]
    ensures Sound(History(w1, h.data, h.created + [VersionOf(NextName(identifier, latest), identifier)]), identifier)
  {
    var next := NextName(identifier, latest);
    NextIsNew(h.w.secrets, identifier, latest);
    NextIsPast(h, identifier, latest);
    IncreasingAppend(h.created, VersionOf(next, identifier));
    forall v | v in h.created + [VersionOf(next, identifier)] ensures ReachesTo(w1.secrets, identifier, v) {
      assert next in w1.secrets && VersionOf(next, identifier) >= v;
    }
  }

  lemma FetchIsSound(h: History, identifier: string, e: Event)
    requires Sound(h, identifier) && e.Fetch? && Happens(h, identifier, e)
    ensures Sound(Next(h, identifier, e), identifier)
  {
    FetchEffect(h.w, identifier, h.data, e.latest, e.fates);
    var w1 := GetLatest(h.w, identifier, h.data, e.latest, e.fates).0;
    if w1.secrets != h.w.secrets {
      AddingIsSound(h, identifier, e.latest, w1);
    }
  }

  /** Version 1, when it is not stored. */
  lemma FirstIsNew(identifier: string)
    ensures var first := NextName(identifier, None);
      && first == VersionedSecretName(identifier, "1") == VersionedSecretName(identifier, Itoa(1))
      && Qualifies(first, identifier) && VersionOf(first, identifier) == 1
  {
    assert Itoa(1) == "1";
    VersionRoundTrip(identifier, 1);
  }

  /** The store after a fetch without a listing. */
  lemma UnlistedEffect(h: History, identifier: string, fates: nat -> Fate)
    ensures var h1, first, n := Fetched(h, identifier, None, fates), VersionedSecretName(identifier, "1"), |h.w.log|;
      && h1.data == h.data
      && (if first in h.w.secrets then
            && h1.created == h.created
            && h1.w.secrets == (if h.w.secrets[first].data == h.data || !fates(n).Acked? || fates(n + 1).Refused?
                                then h.w.secrets
                                else h.w.secrets[first := h.w.secrets[first].(data := h.data)])
          else if fates(n + 1).Refused? then h1.w.secrets == h.w.secrets && h1.created == h.created
          else h1.w.secrets == h.w.secrets[first := Secret(h.data, true)] && h1.created == h.created + [1])
  {
    FirstIsNew(identifier);
  }

  lemma FirstVersionIsSound(h: History, identifier: string, h1: History)
    requires Sound(h, identifier) && h.created == []
    requires var first := VersionedSecretName(identifier, "1");
      first !in h.w.secrets && h1.w.secrets == h.w.secrets[first := Secret(h.data, true)] && h1.created == [1]
    ensures Sound(h1, identifier)
  {
    FirstIsNew(identifier);
    assert VersionedSecretName(identifier, "1") in h1.w.secrets;
  }

  /** A fetch without a listing keeps the history sound and every version as it is exactly when it is harmless. */
  lemma UnlistedFetchIsHarmlessIff(h: History, identifier: string, fates: nat -> Fate)
    requires Sound(h, identifier)
    ensures var h1 := Next(h, identifier, FetchUnlisted(fates));
      Sound(h1, identifier) && Unaltered(h.w.secrets, h1.w.secrets) <==> Harmless(h, identifier, fates)
  {
    var h1, first := Next(h, identifier, FetchUnlisted(fates)), VersionedSecretName(identifier, "1");
    UnlistedEffect(h, identifier, fates);
    if Harmless(h, identifier, fates) {
      if h1.w.secrets != h.w.secrets {
        FirstVersionIsSound(h, identifier, h1);
      }
    } else if first in h.w.secrets {
      assert h1.w.secrets[first].data != h.w.secrets[first].data;
    } else {
      var k := |h.created|;
      assert h1.created[0] == h.created[0] && h1.created[k] == 1 && h.created[0] in h.created;
    }
  }

  lemma NextKeeps(h: History, identifier: string, e: Event)
    requires Sound(h, identifier) && Occurs(h, identifier, e)
    ensures Sound(Next(h, identifier, e), identifier)
    ensures Unaltered(h.w.secrets, Next(h, identifier, e).w.secrets)
  {
    match e
    case SetData(_) =>
    case Fetch(latest, fates) =>
      FetchIsSound(h, identifier, e);
      FetchEffect(h.w, identifier, h.data, latest, fates);
    case FetchUnlisted(fates) => UnlistedFetchIsHarmlessIff(h, identifier, fates);
    case Trim(names, _, _, fates) =>
      TrimIsSound(h, identifier, e);
      DeleteAllEffect(h.w, names, fates);
  }

  lemma PrefixHappens(h: History, identifier: string, events: seq<Event>)
    requires events != [] && AllHappen(h, identifier, events)
    ensures AllHappen(h, identifier, events[..|events| - 1])
    ensures Occurs(Run(h, identifier, events[..|events| - 1]), identifier, events[|events| - 1])
  {
    var k := |events| - 1;
    forall j | 0 <= j < k ensures Occurs(Run(h, identifier, events[..k][..j]), identifier, events[..k][j]) {
      assert events[..k][..j] == events[..j];
    }
  }

  /** Over any run no version number is used twice, and each new one is past every one ever created. */
  lemma {:induction false} NumbersAreNeverReused(h: History, identifier: string, events: seq<Event>)
    requires Sound(h, identifier) && AllHappen(h, identifier, events)
    ensures Sound(Run(h, identifier, events), identifier)
    ensures h.created <= Run(h, identifier, events).created
    decreases |events|
  {
    if events != [] {
      var k := |events| - 1;
      PrefixHappens(h, identifier, events);
      NumbersAreNeverReused(h, identifier, events[..k]);
      NextKeeps(Run(h, identifier, events[..k]), identifier, events[k]);
    }
  }

  /** The secret is stored before, during and after the run. */
  ghost predicate StoredThroughout(h: History, identifier: string, events: seq<Event>, name: string)
    decreases |events|
  {
    && name in Run(h, identifier, events).w.secrets
    && (events != [] ==> StoredThroughout(h, identifier, events[..|events| - 1], name))
  }

  /** A version that is stored throughout a run holds at the end what it held at the start. */
  lemma {:induction false} VersionsAreNeverAltered(h: History, identifier: string, events: seq<Event>, name: string)
    requires Sound(h, identifier) && AllHappen(h, identifier, events)
    requires StoredThroughout(h, identifier, events, name)
    ensures name in h.w.secrets && name in Run(h, identifier, events).w.secrets
    ensures Run(h, identifier, events).w.secrets[name] == h.w.secrets[name]
    decreases |events|
  {
    if events != [] {
      var k := |events| - 1;
      PrefixHappens(h, identifier, events);
      VersionsAreNeverAltered(h, identifier, events[..k], name);
      NumbersAreNeverReused(h, identifier, events[..k]);
      NextKeeps(Run(h, identifier, events[..k]), identifier, events[k]);
    }
  }

  /** The stored names of versions. */
  ghost function VersionNames(secrets: map<string, Secret>, identifier: string): set<string> {
    set name | name in secrets && Qualifies(name, identifier)
  }

  lemma {:induction false} InjectionBounds(names: set<string>, keys: set<nat>, identifier: string)
    requires forall name <- names :: VersionOf(name, identifier) >= 0 && VersionOf(name, identifier) in keys
    requires forall name <- names :: name == VersionedSecretName(identifier, Itoa(VersionOf(name, identifier)))
    ensures |names| <= |keys|
    decreases |names|
  {
    if names != {} {
      var name :| name in names;
      var v: nat := VersionOf(name, identifier);
      forall other | other in names - {name} ensures VersionOf(other, identifier) in keys - {v} {
        assert VersionOf(other, identifier) == v ==> other == name;
      }
      InjectionBounds(names - {name}, keys - {v}, identifier);
    }
  }

  /** The keys of `found` that are not too old. */
  ghost function Recent(found: map<nat, Item>, version: int): set<nat> {
    set v | v in found && version - v < MINIMUM_VERSIONED_SECRETS
  }

  lemma RecentIsSmall(found: map<nat, Item>, version: int)
    requires IsTop(found, version)
    ensures |Recent(found, version)| <= MINIMUM_VERSIONED_SECRETS
  {
    var a: nat := version;
    var b: nat := if version >= 1 then version - 1 else a;
    var c: nat := if version >= 2 then version - 2 else a;
    assert Recent(found, version) <= {a, b, c};
    SubsetIsSmaller(Recent(found, version), {a, b, c});
  }

  lemma {:induction false} SubsetIsSmaller(a: set<nat>, b: set<nat>)
    requires a <= b
    ensures |a| <= |b|
  {
    if a != {} {
      var v :| v in a;
      SubsetIsSmaller(a - {v}, b - {v});
    }
  }

  /**
   A trim that reports no error leaves at most three versions, the latest among them, and removes only
   versions at least three behind it.
   */
  lemma TrimLeavesThree(h: History, identifier: string, e: Event)
    requires Sound(h, identifier) && e.Trim? && Happens(h, identifier, e)
    requires Completes(h, e)
    ensures var after := Next(h, identifier, e).w.secrets;
      && |VersionNames(after, identifier)| <= MINIMUM_VERSIONED_SECRETS
      && e.found[e.version].name in after
      && forall name <- h.w.secrets :: name !in after ==>
           VersionOf(name, identifier) + MINIMUM_VERSIONED_SECRETS <= e.version
  {
    DeleteAllEffect(h.w, e.names, e.fates);
    TopIsKept(h, identifier, e);
    var after := Next(h, identifier, e).w.secrets;
    var names := VersionNames(after, identifier);
    if |e.found| <= MINIMUM_VERSIONED_SECRETS {
      InjectionBounds(names, e.found.Keys, identifier);
    } else {
      forall name | name in names ensures VersionOf(name, identifier) in Recent(e.found, e.version) {
        var v: nat := VersionOf(name, identifier);
        assert v in e.found && e.found[v].name == name;
      }
      InjectionBounds(names, Recent(e.found, e.version), identifier);
      RecentIsSmall(e.found, e.version);
    }
  }
}
