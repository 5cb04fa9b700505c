/** Trimming old secrets at the end of a reconcile, and the secrets that running pods mount. */
module Retention {
  import opened Names
  import opened Decimal
  import opened StatefulSets
  import opened Readiness
  import opened VersionedSecrets
  import opened SecretHistory

  /** The secret a pod mounts, where `mounts` tells which version each revision of the template names. */
  function SecretOf(v: View, mounts: string -> nat, pod: Pod): string {
    VersionedSecretName(v.name, Itoa(mounts(pod.revision)))
  }

  /** The reply to reading pod `n` in a scan that started from the highest ordinal. */
  function PodReply(v: View, replies: nat -> Reply, n: nat): Reply
    requires n < v.readyReplicas
  {
    replies(v.readyReplicas - 1 - n)
  }

  /** A stored version survives a trim if it is at most two behind, and a complete one only then. */
  lemma {:induction false} TrimKeepsRecent(h: History, identifier: string, e: Event, version: nat)
    requires Sound(h, identifier) && e.Trim? && Happens(h, identifier, e) && 0 < version <= MAX_INT64
    requires VersionedSecretName(identifier, Itoa(version)) in h.w.secrets
    ensures var kept := VersionedSecretName(identifier, Itoa(version)) in Next(h, identifier, e).w.secrets;
      && (e.version - version < MINIMUM_VERSIONED_SECRETS ==> kept)
      && (Completes(h, e) && |e.found| > MINIMUM_VERSIONED_SECRETS ==>
            (kept <==> e.version - version < MINIMUM_VERSIONED_SECRETS))
  {
    var name := VersionedSecretName(identifier, Itoa(version));
    VersionRoundTrip(identifier, version);
    DeleteAllEffect(h.w, e.names, e.fates);
    assert version in e.found && e.found[version].name == name;
    forall other | other in e.names ensures other == name ==> e.version - version >= MINIMUM_VERSIONED_SECRETS {
      var v :| v in e.found && e.found[v].name == other && e.version - v >= MINIMUM_VERSIONED_SECRETS;
      assert VersionOf(other, identifier) == v;
    }
  }

  /** A pod the reconcile that reported Ready read was there, and not outdated. */
  lemma ReadyPodIsCurrent(v: View, replies: nat -> Reply, n: nat)
    requires v.Listed() && n < v.readyReplicas && Drive(v, Start(v), replies, []).phase == Ready
    ensures PodReply(v, replies, n).Found? && !Outdated(v, PodReply(v, replies, n).pod)
  {
    ReadyIsEarned(v, replies, []);
    GoodAt(v, v.readyReplicas, replies, 0, n);
  }

  /** The secret `pod` mounts is stored. */
  ghost predicate MountsStored(v: View, mounts: string -> nat, secrets: map<string, Secret>, pod: Pod) {
    0 < mounts(pod.revision) <= MAX_INT64 && SecretOf(v, mounts, pod) in secrets
  }

  /** The trim spares the secret `pod` mounts if `mounted` is at most two behind, and a complete one only then. */
  ghost predicate SparesRecent(v: View, mounts: string -> nat, h: History, e: Event, pod: Pod, mounted: nat)
    requires e.Trim?
  {
    var kept := SecretOf(v, mounts, pod) in Next(h, v.name, e).w.secrets;
    && (e.version - mounted < MINIMUM_VERSIONED_SECRETS ==> kept)
    && (Completes(h, e) && |e.found| > MINIMUM_VERSIONED_SECRETS ==>
          (kept <==> e.version - mounted < MINIMUM_VERSIONED_SECRETS))
  }

  lemma TrimSpares(v: View, mounts: string -> nat, h: History, e: Event, pod: Pod)
    requires Sound(h, v.name) && e.Trim? && Happens(h, v.name, e) && MountsStored(v, mounts, h.w.secrets, pod)
    ensures SparesRecent(v, mounts, h, e, pod, mounts(pod.revision))
  {
    TrimKeepsRecent(h, v.name, e, mounts(pod.revision));
  }

  /**
   The trim comes only after every pod was found on the update revision, so the secret a pod mounts
   survives it when the version named by that revision is at most two behind the latest; and a complete
   trim of more than three versions deletes it otherwise. With no update revision in the status, it is
   the pod's own revision that decides, and that may lag behind without bound.
   */
  lemma {:induction false} MountedSecretsSurvive(v: View, replies: nat -> Reply, mounts: string -> nat,
                                                 h: History, e: Event, n: nat)
    requires v.Listed() && n < v.readyReplicas && Drive(v, Start(v), replies, []).phase == Ready
    requires Sound(h, v.name) && e.Trim? && Happens(h, v.name, e)
    requires PodReply(v, replies, n).Found? ==> MountsStored(v, mounts, h.w.secrets, PodReply(v, replies, n).pod)
    ensures PodReply(v, replies, n).Found?
    ensures var pod := PodReply(v, replies, n).pod;
      SparesRecent(v, mounts, h, e, pod, mounts(if v.revision != "" then v.revision else pod.revision))
  {
    ReadyPodIsCurrent(v, replies, n);
    TrimSpares(v, mounts, h, e, PodReply(v, replies, n).pod);
  }
}
