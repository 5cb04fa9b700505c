/** How each operation on versioned secrets ends: the calls made, the error reported, the secret returned. */
module SecretVerdicts {
  import opened Wrappers
  import opened Decimal
  import opened Names
  import opened VersionedSecrets
  import opened SecretHistory

  /** The call that brings a secret up to date, once it has been asked for: none if it is found to hold the data. */
  function Write(w: Store, name: string, data: string, got: Fate): seq<Call> {
    if got.Acked? && name in w.secrets then (if w.secrets[name].data == data then [] else [Update(name)])
    else [Create(name)]
  }

  /**
   How applying a secret ends: after asking for it the one write it needs is made; an error is reported
   exactly when that is not acknowledged, and nil returned exactly with an error.
   */
  lemma ApplyEnds(w: Store, name: string, data: string, fates: nat -> Fate)
    ensures var (w1, r) := ApplySplunkSecret(w, name, data, fates);
      var n := |w.log|;
      var write := Write(w, name, data, fates(n));
      && w1.log == w.log + [Get(name)] + write
      && (r.failed <==> write != [] && !fates(n + 1).Acked?)
      && r.secret == (if r.failed then None else Some(Item(name, data)))
      && w1.secrets == (if write == [] || fates(n + 1).Refused? then w.secrets
                        else if name !in w.secrets then w.secrets[name := Secret(data, true)]
                        else if fates(n).Acked? then w.secrets[name := w.secrets[name].(data := data)]
                        else w.secrets)
  {
    assert w.log + [Get(name)] + [] == w.log + [Get(name)];
  }

  /**
   What fetching the latest version reports, for any store: nothing is asked and no error reported if the
   latest version holds the data; otherwise nil is returned exactly when the write that was needed was not
   acknowledged, and that is an error unless there was no version before.
   */
  lemma FetchEnds(w: Store, identifier: string, data: string, latest: Option<Item>, fates: nat -> Fate)
    ensures var (w1, r) := GetLatest(w, identifier, data, latest, fates);
      var n, name := |w.log|, NextName(identifier, latest);
      var unmade := Write(w, name, data, fates(n)) != [] && !fates(n + 1).Acked?;
      if latest.Some? && latest.value.data == data then w1 == w && r == Result(latest, false)
      else
        && w1.log == w.log + [Get(name)] + Write(w, name, data, fates(n))
        && r.secret == (if unmade then None else Some(Item(name, data)))
        && (r.failed <==> latest.Some? && unmade)
  {
    ApplyEnds(w, NextName(identifier, latest), data, fates);
  }

  /** ... and for a store whose versions are all listed: the write is the creation of the version after the latest. */
  lemma NewVersionEnds(w: Store, identifier: string, data: string, latest: Option<Item>, fates: nat -> Fate)
    requires NoStrays(w.secrets, identifier) && LatestIn(w.secrets, identifier, latest)
    requires LatestVersion(identifier, latest) < MAX_INT64
    requires !(latest.Some? && latest.value.data == data)
    ensures var (w1, r) := GetLatest(w, identifier, data, latest, fates);
      var name := VersionedSecretName(identifier, Itoa(LatestVersion(identifier, latest) + 1));
      && w1.log == w.log + [Get(name), Create(name)]
      && (r.secret.None? <==> !fates(|w.log| + 1).Acked?)
      && (r.failed <==> latest.Some? && !fates(|w.log| + 1).Acked?)
      && (r.secret.Some? ==> r.secret.value == Item(name, data))
      && w1.secrets == (if fates(|w.log| + 1).Refused? then w.secrets else w.secrets[name := Secret(data, true)])
  {
    NextIsNew(w.secrets, identifier, latest);
    FetchEnds(w, identifier, data, latest, fates);
    var name := NextName(identifier, latest);
    ApplyEnds(w, name, data, fates);
    assert w.log + [Get(name)] + [Create(name)] == w.log + [Get(name), Create(name)];
  }

  /** `k` names were sent for deletion, up to the first deletion not acknowledged; those not refused are gone. */
  ghost predicate Deleted(w: Store, names: seq<string>, k: nat, w1: Store, failed: bool, fates: nat -> Fate) {
    var n := |w.log|;
    && k <= |names| && |w1.log| == n + k && w.log <= w1.log
    && (forall j :: n <= j < n + k ==> w1.log[j] == Delete(names[j - n]))
    && (forall j: nat :: n <= j < n + k - 1 ==> fates(j).Acked?)
    && (if failed then k > 0 && !fates(n + k - 1).Acked? else k == |names| && (k > 0 ==> fates(n + k - 1).Acked?))
    && forall name ::
         (name in w1.secrets <==> name in w.secrets && !SentAndNotRefused(w1.log, name, n, fates))
         && (name in w1.secrets ==> w1.secrets[name] == w.secrets[name])
  }

  ghost predicate SentAndNotRefused(log: seq<Call>, name: string, from: nat, fates: nat -> Fate) {
    exists j: nat :: from <= j < |log| && log[j] == Delete(name) && !fates(j).Refused?
  }

  lemma OneMoreDeleted(w: Store, names: seq<string>, k: nat, w1: Store, failed: bool, fates: nat -> Fate)
    requires names != [] && fates(|w.log|).Acked?
    requires Deleted(Do(w, Delete(names[0]), "", Acked), names[1..], k, w1, failed, fates)
    ensures Deleted(w, names, k + 1, w1, failed, fates)
  {
    var one, n := Do(w, Delete(names[0]), "", Acked), |w.log|;
    assert w1.log[n] == one.log[n] == Delete(names[0]);
    forall name
      ensures SentAndNotRefused(w1.log, name, n, fates)
        <==> name == names[0] || SentAndNotRefused(w1.log, name, n + 1, fates)
    {
    }
  }

  lemma {:induction false} DeletesEnd(w: Store, names: seq<string>, fates: nat -> Fate)
    ensures var (w1, failed) := DeleteAll(w, names, fates);
      |w1.log| >= |w.log| && Deleted(w, names, |w1.log| - |w.log|, w1, failed, fates)
    decreases |names|
  {
    var (w1, failed) := DeleteAll(w, names, fates);
    if names != [] {
      var one := Do(w, Delete(names[0]), "", fates(|w.log|));
      assert one.log[|w.log|] == Delete(names[0]);
      if fates(|w.log|).Acked? {
        DeletesEnd(one, names[1..], fates);
        OneMoreDeleted(w, names, |w1.log| - |one.log|, w1, failed, fates);
      }
    }
  }
}
