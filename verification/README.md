# Verified model of the Splunk operator

A model of the reconcile logic of the Splunk operator for Kubernetes
(`kubernetes/splunk-operator/pkg/splunk`), with proofs of what it promises and of where the code
falls short of it. `dafny verify dfyconfig.toml` checks the whole project.

The code's loops and in-place updates are methods over classes and arrays; each is proved equal to a
function of its inputs or of the old state, and the theorems are about those functions. Calls to the
API server, to Splunk and to pods are requests that are acknowledged, refused, or carried out while
the operator sees an error; every theorem holds for all of these unless it says otherwise.

## Components

**Reconciling a StatefulSet.** `Reconciler` is the code: three pod managers and
`UpdateStatefulSetPods`, proved to be the call-by-call machine of `StatefulSets`. `Operation` puts
that machine into a live cluster: between any two calls pods are recreated, changed or removed,
Splunk members report anything, users change the spec, and the operator may be killed. `Verdicts`
says how a reconcile ends, from the counts, the statuses and the replies alone. `RollingUpdate`,
`Scaling` and `Readiness` prove safety in every such run; `RevisionChange`, `WishChange` and
`ScaleDownClaims` say exactly when a new revision and new wishes are safe and which claims a
scale-down leaves; `Progress`, `Undisturbed` and `Convergence` prove that, when calls succeed and the
environment does its part sooner or later, Ready is reached. `MemberStatus` is the status lists the
managers look at, and `StatusReports` connects them to the running cluster.

**Secrets.** `NamespaceSecret` is the namespace's own secret, `VersionedSecrets` and `SecretHistory`
its numbered copies, with `SecretVerdicts` on how each call ends, `Retention` the trimming of copies
after all pods were checked. `Rekey`, `RekeyVerdicts`, `RekeyRuns`, `RekeyLimits` and `RekeyEnd` are
the re-keying of indexers under maintenance mode. `MisreadSecret` follows a failed read of the
namespace secret through both.

**Pod templates.** `Slices`, `PodTemplates` and `TemplateUpdates`: sorting in place, comparison
regardless of order, merging, and how often a template is written.

**Text-encoded state.** `MonitoringConsole` edits comma-joined peers as text; `PeerLists`,
`PeerUpdates`, `PeerVariables`, `PeerCommas`, `PeerRemoval` and `PeerNames` prove what that does to the lists.
`SmartStore`, `IndexesConf`, `ConfReader`, `ConfStanzas` and `ConfReferences` validate a spec, print
indexes.conf, read it back and prove it closed; `ConfValues` looks its settings up by key, and
`SpecFaults` says which fault validation reports. `BundlePush`, `BundleVerdicts` and `PushPacing`
bring it to the indexers, and `PushDestiny` says which configurations get there.

`Text`, `Decimal`, `Names` and `Wrappers` are shared.

## Assumptions

- The status of a custom resource is saved after each reconcile that gets as far as saving it.
- The StatefulSet status never reports more ready replicas than replicas.
- Nil and empty collections are the same; resource names are not empty.
- What the API server stores is read back as it was written, without defaults filled in.
- Rolling-update theorems let the wishes and the update revision change at quiet moments, between
  reconciles with no scaling left to do, where `WishChange` and `RevisionChange` show that to be safe;
  re-key theorems fix the replicas and one change of the namespace secret. The theorems of `Scaling`
  fix nothing.
- Volume claims are created for ordinals below the replica count only.
- A pod never shows an empty token: a file that is not there reads as an error.
- Reads of pods are current. Ready counts, and the StatefulSet itself while scaling, may be stale.
- Progress is stated for undisturbed reconciles: those that find the counts in agreement find the
  cluster calm, the others may find anything. A peer that is being taken out sooner or later goes on
  to be down and stays so, a detained search head works off its searches, and a peer that is down on
  an up-to-date pod comes back up.
- A restart of an indexer counts when the operator sees it succeed.
- Version history: stored names that read as versions carry the labels the operator lists by, and
  plain numerals.
- Template theorems speak of slices whose keys determine their elements; `UniqueSortIffKeysDetermine`
  shows that this is exactly what makes sorting unambiguous.
- Peer theorems speak of lists in which no peer's text is part of another's, as `UrlsAreApart` shows
  for the peers of one StatefulSet.

## What the code does not do

Each of these is a theorem, with the exact condition or a concrete run.

- A new revision during a rolling update can take down a second pod while the first is missing, or a
  second member while one is out: exactly when a pod above the first is not on the new revision yet.
- A scale-down wished for while a lower member is out takes the highest one out as well; and a growth
  over an outdated pod that is left over can take that pod down while a lower one is missing.
- A scale-down leaves claims: from the first read that fails or deletion that is refused on, all after
  a deletion that is carried out unseen, and every one if the write itself is not acknowledged. Such a
  claim is never deleted later, unless the StatefulSet first grows over its ordinal again.
- Indexers are restarted twice if one that already has the new key comes before a stale one and a
  reconcile fails in between.
- A disabling of maintenance mode that is carried out unseen leaves flags set without the mode; and the
  mode stays on after Ready if it was enabled and no restart was seen to succeed.
- A recorded secret can be marked as re-keyed without having been written.
- A failed listing of secrets looks like having none: version 1 is written, over what it held or
  once more after it was trimmed.
- A failed read of the namespace secret hands out freshly generated tokens that nobody stores: two
  versions are made for nothing, and a re-key restarts all indexers with a key that is stored nowhere.
- The monitoring console stops at the first variable that is in order, so later ones are not
  updated, then or ever; a shrinking resource deletes peers of others whose names contain its own; and
  a deleted resource whose peers do not stand side by side, because it grew after another one had
  joined, leaves all of them behind.
- SmartStore validation accepts an index called `default` or like a volume's stanza, which gives two
  stanzas one name; and volume names with a slash, to which references lead only if the part before
  the slash has a stanza too.
- A SmartStore configuration that is applied without an error is forgotten if an earlier reconcile wrote
  it without its token; it is never pushed, though a push stays due for ever, if the second read of the
  ConfigMap fails and no token is left there; and something older is pushed in its place if both reads
  fail and the ConfigMap holds that with a token. `PushDestiny.Goes` is the exact condition.

## Model

| member | source | states |
|---|---|---|
| `Decimal.AtoiItoa` | kubernetes/splunk-operator/pkg/splunk/util/secrets.go:218-219 | every version number that fits 64 bits is read back from its decimal numeral |
| `Decimal.ItoaInjective` | kubernetes/splunk-operator/pkg/splunk/controller/statefulset.go:108 | different ordinals and versions have different numerals |
| `Names.VersionRoundTrip` | kubernetes/splunk-operator/pkg/splunk/util/secrets.go:209-231 | the name built for version v > 0 is read as version v, for every identifier |
| `Names.VersionedNameInjective` | kubernetes/splunk-operator/pkg/splunk/common/names.go:76-78 | one identifier never gives two versions the same secret name |
| `Names.VersionIsolation` | kubernetes/splunk-operator/pkg/splunk/util/secrets.go:209-231 | no secret name is accepted as a version of two different identifiers, whatever their text |
| `Names.PodNameInjective` | kubernetes/splunk-operator/pkg/splunk/enterprise/names.go:95-97 | two ordinals of a StatefulSet have different pod names |
| `Names.ClaimNameInjective` | kubernetes/splunk-operator/pkg/splunk/controller/statefulset.go:153-158 | a claim name determines both its template and its ordinal, even with dashes in either name |
| `Reconciler.PodManager.Decommission` | kubernetes/splunk-operator/pkg/splunk/enterprise/indexercluster.go:415-447 | one request for a peer that is Up, none otherwise; complete only for a peer that is down, an error for unknown statuses |
| `Reconciler.PodManager.Detain` | kubernetes/splunk-operator/pkg/splunk/enterprise/searchheadcluster.go:372-399 | one detention request for a member that is Up; complete only in detention with no active searches |
| `Reconciler.PodManager.PrepareRecycle` | kubernetes/splunk-operator/pkg/splunk/controller/statefulset.go:49-51 | each manager answers as its member list demands, with at most one request |
| `Reconciler.PodManager.PrepareScaleDown` | kubernetes/splunk-operator/pkg/splunk/enterprise/indexercluster.go:386-399 | the removal request goes out only after the quarantine is complete, to that peer's own ID; its failure is an error |
| `Reconciler.PodManager.FinishRecycle` | kubernetes/splunk-operator/pkg/splunk/enterprise/searchheadcluster.go:402-419 | complete exactly for members that are Up; a detained search head is released instead; a peer past the list is an error |
| `Reconciler.UpdateStatefulSetPods` | kubernetes/splunk-operator/pkg/splunk/controller/statefulset.go:99-243 | the imperative reconcile makes exactly the calls of the call-by-call machine, with the same phase and error, for every stream of replies; and leaves the in-memory replica count the machine says |
| `Reconciler.VisitPods` | kubernetes/splunk-operator/pkg/splunk/controller/statefulset.go:178-243 | the downward pod loop and the final trim are the machine's scan |
| `Reconciler.VisitPod` | kubernetes/splunk-operator/pkg/splunk/controller/statefulset.go:178-231 | one pod: stop with a phase and an error, or go on to the next lower ordinal |
| `Reconciler.ScaleDown` | kubernetes/splunk-operator/pkg/splunk/controller/statefulset.go:128-173 | the scale-down branch: prepare, write, then claims |
| `Reconciler.DeleteClaims` | kubernetes/splunk-operator/pkg/splunk/controller/statefulset.go:152-171 | one read and one deletion per claim template, in order, up to the first failure |
| `RollingUpdate.RunKeeps` | kubernetes/splunk-operator/pkg/splunk/controller/statefulset.go:105-232 | with the wishes and the revision changed only at quiet moments where that is safe, every interleaving keeps the invariant of rolling updates and scaling |
| `RollingUpdate.DeletionIsSafe` | kubernetes/splunk-operator/pkg/splunk/controller/statefulset.go:192-220 | a pod is deleted only if it is the very pod that was read, was ready and is outdated, every higher pod was read in order by this reconcile and still is unless touched since, and no pod the operator deleted is still missing |
| `RollingUpdate.RequestIsSafe` | kubernetes/splunk-operator/pkg/splunk/enterprise/indexercluster.go:386-447 | a decommission or detention request, for a recycle or a scale-down, is sent to n, whatever becomes of it, only when n and every higher member were read Up, every higher pod is updated, and no member is out because of the operator |
| `RollingUpdate.OneAtATime` | kubernetes/splunk-operator/pkg/splunk/controller/statefulset.go:105-232 | at most one operator-deleted pod that is wanted is missing and at most one such member is out of service because of the operator, through updates and scaling, with stale ready counts and any failures |
| `RevisionChange.ChangeIsSafeIff` | kubernetes/splunk-operator/pkg/splunk/controller/statefulset.go:178-232 | at a quiet moment of any such run (between two reconciles, no scaling left to do), for all three managers: after a change to revision r every further run keeps at most one operator-deleted pod missing and one member out, exactly when every pod above a missing pod or above a member that is out because of the operator is on r already |
| `RevisionChange.NewRevisionIsSafeIff` | kubernetes/splunk-operator/pkg/splunk/controller/statefulset.go:178-232 | for a revision no pod carries: exactly when no pod is left above a pod that is missing or a member that is out because of the operator |
| `RevisionChange.UnsafeChangeTakesTwo` | kubernetes/splunk-operator/pkg/splunk/controller/statefulset.go:178-232 | from any other moment, a continuation by one undisturbed reconcile, whatever the number of pods, in which two are missing or two members are out |
| `RevisionChange.NewRevisionTakesDownTwo` | kubernetes/splunk-operator/pkg/splunk/controller/statefulset.go:178-232 | such moments are reached: a concrete run from a settled cluster |
| `WishChange.WishIsSafeIff` | kubernetes/splunk-operator/pkg/splunk/controller/statefulset.go:119-149 | at a quiet moment of any such run: new wishes keep every further run, scaling included, at one pod missing and one member out, exactly when no member is out but that of the highest ordinal, if it is to shrink, and no leftover outdated pod would come to stand above a missing pod or a member that is out, if it is to grow |
| `WishChange.UnsafeWishTakesTwo` | kubernetes/splunk-operator/pkg/splunk/controller/statefulset.go:128-149 | from any other moment, a continuation in which two are missing or out |
| `WishChange.ScaleDownTakesTwo` | kubernetes/splunk-operator/pkg/splunk/enterprise/indexercluster.go:386-447 | such moments are reached: a concrete run of an indexer cluster |
| `Scaling.RunKeeps` | kubernetes/splunk-operator/pkg/splunk/controller/statefulset.go:105-173 | what the machine knows at each call of a scale-down, in every run with spec, factor and revision changing at will |
| `Scaling.ShrinkIsOrdered` | kubernetes/splunk-operator/pkg/splunk/enterprise/indexercluster.go:386-399 | a StatefulSet shrinks only from n+1 to n, never below what the reconcile works towards, and only after this reconcile saw member n drained and had its own removal acknowledged |
| `Scaling.OneReplicaPerReconcile` | kubernetes/splunk-operator/pkg/splunk/controller/statefulset.go:128-149 | over any run no more replicas are lost than reconciles were begun |
| `Scaling.NeverBelowWishes` | kubernetes/splunk-operator/pkg/splunk/enterprise/indexercluster.go:504-526 | with the wishes fixed, no run shrinks below the wanted replicas, the replication factor or the minimum |
| `Scaling.RemovedPodsAreDrained` | kubernetes/splunk-operator/pkg/splunk/enterprise/searchheadcluster.go:351-399 | a search head deleted or scaled away was seen in detention with no active searches by the same reconcile; an indexer was seen down |
| `Scaling.LiveClaimsSurvive` | kubernetes/splunk-operator/pkg/splunk/controller/statefulset.go:152-171 | no call in any run deletes a claim of an ordinal below the replica count, whatever the template |
| `Scaling.OnlySurplusClaimsGo` | kubernetes/splunk-operator/pkg/splunk/controller/statefulset.go:152-171 | whatever claim disappears in a run is a template's claim for the ordinal just removed, deleted by the operator |
| `Scaling.LeftoverClaimIsKept` | kubernetes/splunk-operator/pkg/splunk/controller/statefulset.go:152-171 | a claim left by a failed scale-down is never retried: it stays until the StatefulSet grows over that ordinal again |
| `ScaleDownClaims.ClaimIsLeftIff` | kubernetes/splunk-operator/pkg/splunk/controller/statefulset.go:141-171 | from the write of a scale-down on, with any events in between, claims being created for wanted ordinals included: once the write takes effect, a claim of the removed ordinal is left exactly if it was there and the calls did not get to it, that is unless the write and all earlier reads and deletions are acknowledged, its own read is, and its deletion is not refused |
| `ScaleDownClaims.ClaimIsLeft` | kubernetes/splunk-operator/pkg/splunk/controller/statefulset.go:152-171 | a concrete run from a fresh state that shrinks and leaves the claim |
| `Readiness.ReadyIsEarned` | kubernetes/splunk-operator/pkg/splunk/controller/statefulset.go:105-243 | Ready is reported exactly when stored, ready and wanted replicas agree and this reconcile read every pod ready, on the update revision and back in service; the calls made and the error are determined |
| `Readiness.ScanIsReady` | kubernetes/splunk-operator/pkg/splunk/controller/statefulset.go:178-243 | the same for a scan from any ordinal down |
| `Readiness.ScalingIsNotReady` | kubernetes/splunk-operator/pkg/splunk/controller/statefulset.go:105-173 | no scaling path ends in Ready |
| `Verdicts.ReconcileEnds` | kubernetes/splunk-operator/pkg/splunk/controller/statefulset.go:99-243 | the whole outcome, for every view and every stream of replies, from the counts, the statuses and the replies alone: which calls are made, up to the first not answered as asked; which pod the scan stops at and what that calls for; the phase and the error |
| `Verdicts.FailedIff` | kubernetes/splunk-operator/pkg/splunk/controller/statefulset.go:99-243 | an error is returned in exactly two cases: the last call made was not answered as asked, or the member the reconcile stopped at has a status its manager does not handle |
| `Verdicts.LocalReplicasAreSent` | kubernetes/splunk-operator/pkg/splunk/controller/statefulset.go:117-149 | the replica count left in memory is the one last sent, acknowledged or not, and the stored one if none was sent |
| `Progress.ReconcileIsARun` | kubernetes/splunk-operator/pkg/splunk/controller/statefulset.go:99-243 | an undisturbed reconcile is one of the runs of the interleaved system |
| `Undisturbed.ReadAllEnds` | kubernetes/splunk-operator/pkg/splunk/enterprise/indexercluster.go:556-574 | reading the members one by one gives the list of all of them |
| `Undisturbed.ScanEnds` | kubernetes/splunk-operator/pkg/splunk/controller/statefulset.go:178-243 | an undisturbed scan does one step for the highest pod not in order, or reports Ready |
| `Undisturbed.ScaleDownEnds` | kubernetes/splunk-operator/pkg/splunk/controller/statefulset.go:128-173 | scaling down removes the highest ordinal once it is drained, whatever becomes of its claims, and otherwise makes one request or waits |
| `Convergence.RoundShrinks` | kubernetes/splunk-operator/pkg/splunk/controller/statefulset.go:99-243 | short of Ready, a reconcile and the environment's answer make the measure (distance, outdated pods, stages, active searches) smaller |
| `Convergence.ReadyIffDone` | kubernetes/splunk-operator/pkg/splunk/controller/statefulset.go:99-243 | an undisturbed reconcile reports Ready exactly when the measure is zero |
| `Convergence.ReachesReady` | kubernetes/splunk-operator/pkg/splunk/controller/statefulset.go:99-243 | in every endless run of undisturbed reconciles in which the environment does any part of its work after each, ready counts lag at any time but agree again and again, and no member in transition stays put for ever: from any moment on, a reconcile that reports Ready follows |
| `Convergence.RoundsAreFair` | kubernetes/splunk-operator/pkg/splunk/controller/statefulset.go:99-243 | a sequence of rounds, each answered in full, is such a run |
| `Convergence.RoundsExist` | kubernetes/splunk-operator/pkg/splunk/controller/statefulset.go:99-243 | from any calm cluster there is an endless sequence of rounds |
| `MemberStatus.IndexerStatus.UpdateStatus` | kubernetes/splunk-operator/pkg/splunk/enterprise/indexercluster.go:529-582 | from any previous list, success leaves one entry per reported replica: entry n has the name of pod n and the ID, status, bundle, bucket count and searchable flag the reply holds under that name, or blanks; a failure leaves the list alone |
| `MemberStatus.SearchHeadStatus.UpdateStatus` | kubernetes/splunk-operator/pkg/splunk/enterprise/searchheadcluster.go:442-494 | the same for search heads with at least one ready: status, both search counts, ad hoc and registered as that head answered, or blanks; the captain and its flags are those told by the first head that answers both queries |
| `MemberStatus.EntriesAreDistinct` | kubernetes/splunk-operator/pkg/splunk/enterprise/indexercluster.go:557-558 | entry n carries the name of pod n and of no other |
| `StatusReports.PeersAreRead` | kubernetes/splunk-operator/pkg/splunk/enterprise/indexercluster.go:556-574 | when the reply reports the cluster as it is, reading the members one by one, each reached if the reply has it, ends with the list updateStatus leaves: what the run theorems decide from |
| `StatusReports.HeadsAreRead` | kubernetes/splunk-operator/pkg/splunk/enterprise/searchheadcluster.go:454-494 | the same for search heads, each reached if it answers |
| `Rekey.IndexerCr.SetClusterMaintenanceMode` | kubernetes/splunk-operator/pkg/splunk/enterprise/indexercluster.go:179-214 | the status follows the mode exactly when the call is acknowledged |
| `Rekey.IndexerCr.ApplyToPod` | kubernetes/splunk-operator/pkg/splunk/enterprise/indexercluster.go:247-311 | one indexer: read, enter maintenance, skip, or re-key and restart, with the status updated in place |
| `Rekey.IndexerCr.ApplyIdxcSecret` | kubernetes/splunk-operator/pkg/splunk/enterprise/indexercluster.go:217-347 | the whole of ApplyIdxcSecret as a function of status, cluster and call outcomes; after success every recorded secret is marked as written |
| `Rekey.IndexerCr.ApplyToSecrets` | kubernetes/splunk-operator/pkg/splunk/enterprise/indexercluster.go:321-344 | the map walk visits each recorded secret once, in whatever order, up to the first failure: two reads, and ApplySecret with a read of its own |
| `Rekey.WrittenIff` | kubernetes/splunk-operator/pkg/splunk/enterprise/indexercluster.go:324-343 | a recorded secret marked as written holds the new key exactly if it did before or the last read before the write succeeded: if that fails, creating the secret passes for writing it |
| `Rekey.IndexerCr.FinishReady` | kubernetes/splunk-operator/pkg/splunk/enterprise/indexercluster.go:143-154 | the Ready branch disables maintenance before it forgets the flags |
| `RekeyVerdicts.PodsEnd` | kubernetes/splunk-operator/pkg/splunk/enterprise/indexercluster.go:242-312 | the calls a pass over the indexers makes, from the secrets, the flags and the replies alone: reads, entering the mode once, key and restart of those that differ and are not flagged, up to the first call not acknowledged; an error exactly for that or for an indexer whose secret cannot be read |
| `RekeyVerdicts.PodsMark` | kubernetes/splunk-operator/pkg/splunk/enterprise/indexercluster.go:264-305 | such a pass marks exactly the secrets of the indexers it restarted, and the mode exactly if it entered it |
| `RekeyVerdicts.SuccessCompared` | kubernetes/splunk-operator/pkg/splunk/enterprise/indexercluster.go:217-312 | when ApplyIdxcSecret succeeds for a new version, every indexer's secret was read in this pass and is stored, and if its key differed, the indexer was flagged or re-keyed and restarted |
| `RekeyVerdicts.UnreadableFails` | kubernetes/splunk-operator/pkg/splunk/enterprise/indexercluster.go:246-250 | an indexer whose secret cannot be read makes it fail |
| `RekeyVerdicts.WritesEnd` | kubernetes/splunk-operator/pkg/splunk/enterprise/indexercluster.go:321-344 | the walk over the recorded secrets: what each write asks, which secrets are marked as written, and an error exactly for a call that was denied |
| `RekeyVerdicts.ReadyEnds` | kubernetes/splunk-operator/pkg/splunk/enterprise/indexercluster.go:143-154 | Ready with flags asks for the mode to be left, and forgets them only if that is acknowledged |
| `RekeyVerdicts.VersionMovesCompared` | kubernetes/splunk-operator/pkg/splunk/enterprise/indexercluster.go:138-154 | a reconcile that moves the recorded version from one to another is one that found the pods ready and compared every indexer's secret with the new key |
| `RekeyVerdicts.NoVersionUncompared` | kubernetes/splunk-operator/pkg/splunk/enterprise/indexercluster.go:138-154 | over any run of reconciles, the recorded version moves to another one only after a pass that compared every indexer's secret |
| `RekeyRuns.FlagsCountRestarts` | kubernetes/splunk-operator/pkg/splunk/enterprise/indexercluster.go:247-311 | a pass keeps all flags true and adds one for each restart seen to succeed, wherever it breaks off |
| `RekeyRuns.RoundsKeepTrack` | kubernetes/splunk-operator/pkg/splunk/enterprise/indexercluster.go:217-347 | over any number of reconciles the flags are exactly the leading indexers done so far |
| `RekeyRuns.NoIndexerTwice` | kubernetes/splunk-operator/pkg/splunk/enterprise/indexercluster.go:217-347 | no indexer has two restarts seen to succeed, only stale ones have any, across reconciles failing anywhere |
| `RekeyRuns.NoIndexerSkipped` | kubernetes/splunk-operator/pkg/splunk/enterprise/indexercluster.go:217-347 | when ApplyIdxcSecret succeeds, every stale indexer has been restarted |
| `RekeyLimits.BracketKept` | kubernetes/splunk-operator/pkg/splunk/enterprise/indexercluster.go:138-154 | a reconcile keeps "re-keyed only in maintenance mode, which stays on while a flag is set" exactly when the disabling call is not carried out unseen |
| `RekeyLimits.BracketHolds` | kubernetes/splunk-operator/pkg/splunk/enterprise/indexercluster.go:264-305 | the bracket over whole runs |
| `RekeyLimits.FlagsClearedAfterDisable` | kubernetes/splunk-operator/pkg/splunk/enterprise/indexercluster.go:143-154 | flags disappear only in a reconcile whose last call disabled maintenance mode and was acknowledged |
| `RekeyLimits.NeverTwiceIffStaleFirst` | kubernetes/splunk-operator/pkg/splunk/enterprise/indexercluster.go:272-305 | a second restart is impossible exactly when the stale indexers come before all current ones |
| `RekeyLimits.GapRestartsTwice` | kubernetes/splunk-operator/pkg/splunk/enterprise/indexercluster.go:272-305 | otherwise two concrete reconciles restart an indexer twice |
| `RekeyEnd.ModeOffIff` | kubernetes/splunk-operator/pkg/splunk/enterprise/indexercluster.go:138-154 | over any run of reconciles up to the Ready that ends a re-key: maintenance mode is off afterwards exactly if a restart was seen to succeed on the way or enabling the mode never took effect |
| `RekeyEnd.ModeIsLeftAlone` | kubernetes/splunk-operator/pkg/splunk/enterprise/indexercluster.go:143-154 | after that, no reconcile touches the mode until the namespace secret changes again |
| `RekeyEnd.ModeStaysOn` | kubernetes/splunk-operator/pkg/splunk/enterprise/indexercluster.go:264-305 | a concrete run that ends Ready in maintenance mode |
| `NamespaceSecret.SecretApi.ApplyNamespaceScopedSecretObject` | kubernetes/splunk-operator/pkg/splunk/util/secrets.go:419-476 | missing tokens are generated and written; an existing complete secret is returned without a write |
| `NamespaceSecret.CallEnds` | kubernetes/splunk-operator/pkg/splunk/util/secrets.go:419-476 | an error exactly when a write was needed and not acknowledged; what is returned is what was read, with one new token for each of the five types missing and nothing else; the same is stored if a write was needed and not refused, but a secret that exists unread stays |
| `NamespaceSecret.ReturnedIsComplete` | kubernetes/splunk-operator/pkg/splunk/util/secrets.go:419-476 | a returned secret has all five token types, and the next readable call returns it unchanged |
| `NamespaceSecret.StoredTokensAreKept` | kubernetes/splunk-operator/pkg/splunk/util/secrets.go:426-451 | over any run, whatever fails, a stored token is never changed or lost |
| `NamespaceSecret.ReturnedIsStoredIff` | kubernetes/splunk-operator/pkg/splunk/util/secrets.go:426-476 | what is returned is what is stored exactly unless reading an existing secret failed: then new tokens are returned that are stored nowhere |
| `MisreadSecret.MisreadMakesTwo` | kubernetes/splunk-operator/pkg/splunk/util/secrets.go:292-322 | such a read makes a version of tokens that are stored nowhere, and the next good read one more, of the data there was before |
| `MisreadSecret.MisreadRestartsAll` | kubernetes/splunk-operator/pkg/splunk/enterprise/indexercluster.go:217-305 | such a read in a re-key of a cluster in which nothing has changed sets the key of every indexer to one that is stored nowhere, and restarts them all |
| `VersionedSecrets.FindLatest` | kubernetes/splunk-operator/pkg/splunk/util/secrets.go:234-289 | a listed secret of the highest version, or none; and one secret per version that occurs |
| `VersionedSecrets.Namespace.GetExistingLatestVersionedSecret` | kubernetes/splunk-operator/pkg/splunk/util/secrets.go:234-289 | the same in terms of the store; a failed listing looks like no version at all |
| `VersionedSecrets.Namespace.GetLatestVersionedSecret` | kubernetes/splunk-operator/pkg/splunk/util/secrets.go:292-322 | the call as a function of the store, the readable data, the latest version and the call outcomes |
| `VersionedSecrets.Namespace.ApplySplunkSecretData` | kubernetes/splunk-operator/pkg/splunk/util/secrets.go:363-416 | create or update, and nothing if the data is the same |
| `VersionedSecrets.Namespace.RemoveUnwantedSecrets` | kubernetes/splunk-operator/pkg/splunk/util/secrets.go:169-191 | deletes only versions at least three behind, all of them unless a call fails, and none if there are at most three |
| `SecretHistory.FetchEffect` | kubernetes/splunk-operator/pkg/splunk/util/secrets.go:292-322 | nothing is written if the latest version holds the data; otherwise the only write is a new name with number latest + 1; what is returned holds the current data and is stored |
| `SecretVerdicts.ApplyEnds` | kubernetes/splunk-operator/pkg/splunk/util/secrets.go:363-416 | for any store: the write that is needed, and no other; an error, and nil, exactly when that is not acknowledged |
| `SecretVerdicts.FetchEnds` | kubernetes/splunk-operator/pkg/splunk/util/secrets.go:292-322 | for any store and any latest version: no call and no error if the data is the same; otherwise nil exactly when the write needed was not acknowledged, which is an error unless there was no version |
| `SecretVerdicts.NewVersionEnds` | kubernetes/splunk-operator/pkg/splunk/util/secrets.go:302-322 | with all versions listed and other data: the name with number latest + 1 is created; nil exactly when that is not acknowledged, and an error exactly when there was a version besides |
| `SecretVerdicts.DeletesEnd` | kubernetes/splunk-operator/pkg/splunk/util/secrets.go:180-188 | old versions are deleted in order up to the first deletion not acknowledged, which alone is an error; those not refused are gone, and nothing else |
| `SecretHistory.NumbersAreNeverReused` | kubernetes/splunk-operator/pkg/splunk/util/secrets.go:292-322 | over any run of changes, fetches and trims, and of fetches whose listing fails harmlessly, the numbers of created versions strictly increase |
| `SecretHistory.VersionsAreNeverAltered` | kubernetes/splunk-operator/pkg/splunk/util/secrets.go:292-322 | a version stored throughout a run holds what it held at the start |
| `SecretHistory.TopIsKept` | kubernetes/splunk-operator/pkg/splunk/util/secrets.go:169-191 | a trim never deletes the latest version |
| `SecretHistory.TrimLeavesThree` | kubernetes/splunk-operator/pkg/splunk/util/secrets.go:169-191 | a trim without error leaves at most three versions and removes only those at least three behind |
| `SecretHistory.UnlistedFetchIsHarmlessIff` | kubernetes/splunk-operator/pkg/splunk/util/secrets.go:253-257 | a fetch whose listing fails keeps all versions as they are and the numbering sound exactly if version 1 is stored with the current data, or is missing and there never was a version, or nothing comes of the write; otherwise version 1 is overwritten or created again |
| `Retention.TrimKeepsRecent` | kubernetes/splunk-operator/pkg/splunk/util/secrets.go:180-188 | a version survives if it is at most two behind the latest, and a complete trim spares only those |
| `Retention.MountedSecretsSurvive` | kubernetes/splunk-operator/pkg/splunk/controller/statefulset.go:234-238 | since the trim follows the all-pods check, the secret a pod mounts survives if the version named by the update revision is at most two behind, and exactly then when the trim is complete; without a revision in the status the pod's own decides |
| `Slices.SortSlice` | kubernetes/splunk-operator/pkg/splunk/common/util.go:436-466 | sorts in place: a sorted permutation |
| `Slices.SortAndCompareSlices` | kubernetes/splunk-operator/pkg/splunk/common/util.go:405-433 | no difference means the same elements; with keys that determine elements, exactly that; both slices end up sorted |
| `Slices.SortIsUnique` | kubernetes/splunk-operator/pkg/splunk/common/util.go:436-466 | with keys that determine elements there is one sorted order |
| `Slices.UniqueSortIffKeysDetermine` | kubernetes/splunk-operator/pkg/splunk/common/util.go:436-466 | and only then: otherwise two sorts of the same slice differ, so a comparison may report a difference that is none |
| `PodTemplates.MergeContainer` | kubernetes/splunk-operator/pkg/splunk/controller/util.go:131-186 | one container: agrees afterwards, keeps what is not compared, reports a change exactly when one counts |
| `PodTemplates.PodTemplate.MergePodSpecUpdates` | kubernetes/splunk-operator/pkg/splunk/controller/util.go:78-190 | the pod spec in place: what agrees afterwards, what is kept, when a change is reported |
| `PodTemplates.PodTemplate.MergePodMetaUpdates` | kubernetes/splunk-operator/pkg/splunk/controller/util.go:53-73 | annotations and labels |
| `PodTemplates.PodTemplate.MergePodUpdates` | kubernetes/splunk-operator/pkg/splunk/controller/util.go:41-47 | false exactly when the compared fields agree up to slice order (keys determining elements); afterwards they agree; uncompared fields, init containers of equal number and monitoring console environments are kept |
| `TemplateUpdates.SortStatefulSetSlices` | kubernetes/splunk-operator/pkg/splunk/controller/util.go:193-216 | the same template with every compared slice sorted |
| `TemplateUpdates.StatefulSetApi.ApplyStatefulSet` | kubernetes/splunk-operator/pkg/splunk/controller/statefulset.go:59-96 | create, update or leave alone; the caller is handed the latest state; if an existing StatefulSet cannot be read, nothing is written, and Pending is reported without an error |
| `TemplateUpdates.SecondMergeFindsNothing` | kubernetes/splunk-operator/pkg/splunk/controller/util.go:41-190 | after a merge, merging the same template in any slice order changes nothing |
| `TemplateUpdates.UpToDateIsReady` | kubernetes/splunk-operator/pkg/splunk/controller/statefulset.go:76-96 | an up-to-date template is not written, and reports Ready exactly if it can be read |
| `TemplateUpdates.WritesAtMostOnce` | kubernetes/splunk-operator/pkg/splunk/controller/statefulset.go:59-96 | over any number of reconciles a desired template takes effect at most once, and never if the stored one agrees |
| `Text.SplitJoin` | kubernetes/splunk-operator/pkg/splunk/enterprise/monitoringconsole.go:318-319 | splitting a joined list gives the list back |
| `Text.JoinSplit` | kubernetes/splunk-operator/pkg/splunk/enterprise/monitoringconsole.go:335-336 | joining a split string gives the string back |
| `Text.ReplaceJoin` | kubernetes/splunk-operator/pkg/splunk/enterprise/monitoringconsole.go:357-358 | replacing in a joined list is replacing in each entry |
| `MonitoringConsole.ConfigMap.AddURLsConfigMap` | kubernetes/splunk-operator/pkg/splunk/enterprise/monitoringconsole.go:312-348 | the nested loops as a function on the map, with the early end of the loop over variables |
| `MonitoringConsole.ConfigMap.CollectOwn` | kubernetes/splunk-operator/pkg/splunk/enterprise/monitoringconsole.go:321-330 | the entries with the resource's name in them, joined last to first |
| `MonitoringConsole.ConfigMap.DeleteURLsConfigMap` | kubernetes/splunk-operator/pkg/splunk/enterprise/monitoringconsole.go:351-382 | the deletion loops as functions on the map, for a shrinking and for a deleted resource |
| `PeerLists.DeleteVarRefines` | kubernetes/splunk-operator/pkg/splunk/enterprise/monitoringconsole.go:351-382 | the text edits delete exactly the doomed entries and keep the others in order, in whatever order they are visited |
| `PeerLists.AddEntriesRefines` | kubernetes/splunk-operator/pkg/splunk/enterprise/monitoringconsole.go:336-342 | the text edits append exactly the entries not held yet |
| `PeerLists.OwnTextLength` | kubernetes/splunk-operator/pkg/splunk/enterprise/monitoringconsole.go:320-330 | the collected text is as long as the own entries joined |
| `PeerUpdates.LengthsDecide` | kubernetes/splunk-operator/pkg/splunk/enterprise/monitoringconsole.go:331-345 | the length comparison decides whether the resource grows, shrinks or stays |
| `PeerUpdates.UpdateRefines` | kubernetes/splunk-operator/pkg/splunk/enterprise/monitoringconsole.go:312-348 | an update of one variable is the update of its list, up or down; a variable with nothing left is dropped |
| `PeerUpdates.EmptyValueGrows` | kubernetes/splunk-operator/pkg/splunk/enterprise/monitoringconsole.go:336-341 | a variable stored with an empty value gets its peers behind a comma |
| `PeerCommas.CommaUpdates` | kubernetes/splunk-operator/pkg/splunk/enterprise/monitoringconsole.go:336-341 | from then on: updating a value behind a comma is the update of its list; the comma stays while the resource grows or keeps its size, and is tidied away when it shrinks |
| `PeerUpdates.UpdateIsRight` | kubernetes/splunk-operator/pkg/splunk/enterprise/monitoringconsole.go:312-348 | it leaves exactly the new own peers, and everyone else's entries in their order |
| `PeerUpdates.RepeatChangesNothingIff` | kubernetes/splunk-operator/pkg/splunk/enterprise/monitoringconsole.go:312-348 | doing it again changes nothing, exactly unless the first time dropped the variable |
| `PeerUpdates.ForeignPeerSurvivesIff` | kubernetes/splunk-operator/pkg/splunk/enterprise/monitoringconsole.go:356-358 | when a resource shrinks, another resource's peer survives exactly when its text does not contain the shrinking resource's name |
| `PeerUpdates.AllWantedIff` | kubernetes/splunk-operator/pkg/splunk/enterprise/monitoringconsole.go:331-333 | when none has to shrink, whatever the texts, all variables are brought up to date exactly when none that must change comes after one already in order |
| `PeerVariables.AddHolds` | kubernetes/splunk-operator/pkg/splunk/enterprise/monitoringconsole.go:312-348 | what one call leaves in all variables, some new, some growing, some shrinking: each holds its new list or its old one, and which |
| `PeerVariables.AllUpdatedIff` | kubernetes/splunk-operator/pkg/splunk/enterprise/monitoringconsole.go:312-348 | one call brings all of them up to date exactly when the first that does not grow is followed by variables in order only, if it is in order itself, or, if it shrinks, by none that grows after one that does not |
| `PeerVariables.NeverReached` | kubernetes/splunk-operator/pkg/splunk/enterprise/monitoringconsole.go:331-333 | what the first call left as it was, no further call for the same peers changes |
| `PeerRemoval.ReplaceBlanks` | kubernetes/splunk-operator/pkg/splunk/enterprise/monitoringconsole.go:359-361 | cutting the joined peers out of a joined list as one text takes out exactly their occurrences side by side |
| `PeerRemoval.RemovedIff` | kubernetes/splunk-operator/pkg/splunk/enterprise/monitoringconsole.go:351-382 | deleting a resource leaves a variable with everyone else's peers, in their order, exactly when its own stand side by side; otherwise the variable stays as it was |
| `PeerRemoval.GrownIsNeverRemoved` | kubernetes/splunk-operator/pkg/splunk/enterprise/monitoringconsole.go:336-361 | once a resource has grown after another one joined, deleting it removes none of its peers |
| `PeerRemoval.ResourceIsRemovedIff` | kubernetes/splunk-operator/pkg/splunk/enterprise/monitoringconsole.go:351-382 | deleting a resource takes its peers out of all its variables exactly when they stand side by side in each; where they do not, all stay; its site is gone in any case |
| `PeerCommas.CommaIsRemoved` | kubernetes/splunk-operator/pkg/splunk/enterprise/monitoringconsole.go:351-382 | deleting the resource leaves of a value behind a comma what it would leave without it |
| `PeerNames.GetSplunkStatefulsetUrls` | kubernetes/splunk-operator/pkg/splunk/enterprise/names.go:128-134 | the joined peers of a StatefulSet |
| `PeerNames.UrlsAreApart` | kubernetes/splunk-operator/pkg/splunk/enterprise/names.go:128-150 | a StatefulSet's peers are distinct and all contain the resource's name; none is part of another exactly if they are full names, or host names of at most ten pods |
| `SmartStore.ValidateSplunkSmartstoreSpec` | kubernetes/splunk-operator/pkg/splunk/enterprise/configuration.go:781-859 | the loops over volumes and indexes find the fault that SpecFaults.ReportsFirstFault says comes first |
| `SmartStore.CheckIfVolumeExists` | kubernetes/splunk-operator/pkg/splunk/enterprise/configuration.go:735-743 | the first volume of that name, or none |
| `SmartStore.ValidationIsExact` | kubernetes/splunk-operator/pkg/splunk/enterprise/configuration.go:781-859 | validation turns down exactly the specs that are not valid |
| `SpecFaults.ReportsFirstFault` | kubernetes/splunk-operator/pkg/splunk/enterprise/configuration.go:781-859 | of all faults a spec has, the one reported is first in the order missing volumes, volume by volume, default volume, index by index; none is reported exactly when there is none |
| `IndexesConf.GetSmartstoreVolumesConfig` | kubernetes/splunk-operator/pkg/splunk/enterprise/configuration.go:862-883 | the volume stanzas, or an error exactly when a key cannot be read |
| `IndexesConf.GetSmartstoreIndexesConfig` | kubernetes/splunk-operator/pkg/splunk/enterprise/configuration.go:886-932 | the text grown in the loop is the index blocks |
| `IndexesConf.GetSmartstoreIndexesDefaults` | kubernetes/splunk-operator/pkg/splunk/enterprise/configuration.go:991-1023 | the default stanza |
| `IndexesConf.AssembleConf` | kubernetes/splunk-operator/pkg/splunk/enterprise/util.go:164-200 | the text put together, and exactly when each error occurs |
| `IndexesConf.AssembleValidConf` | kubernetes/splunk-operator/pkg/splunk/enterprise/util.go:186-190 | "indexes without volumes" cannot occur after validation |
| `ConfStanzas.ConfReads` | kubernetes/splunk-operator/pkg/splunk/enterprise/configuration.go:862-1023 | the generated text reads back as the default stanza, one per volume and one per index, with their settings |
| `ConfValues.VolumesAreRight` | kubernetes/splunk-operator/pkg/splunk/enterprise/configuration.go:862-883 | looked up by key in the text as read: each volume's path, access key, secret key and endpoint are its own, each under its own name, and its stanza has nothing else |
| `ConfValues.IndexesAreRight` | kubernetes/splunk-operator/pkg/splunk/enterprise/configuration.go:886-932 | each index's remote path and four numbers have its values, are absent when not set, and its stanza has nothing else |
| `ConfValues.DefaultsAreRead` | kubernetes/splunk-operator/pkg/splunk/enterprise/configuration.go:991-1023 | the same for the default stanza and its fixed settings |
| `ConfStanzas.UniqueStanzasIff` | kubernetes/splunk-operator/pkg/splunk/enterprise/configuration.go:834-856 | the text of an accepted spec has unique stanza names exactly when no index is called default or volume:<name of a volume> |
| `ConfReferences.ReferencesLeadIff` | kubernetes/splunk-operator/pkg/splunk/enterprise/configuration.go:897-903 | every volume reference leads to a stanza exactly when each referenced name, up to its first slash, is one |
| `ConfReferences.AcceptedReferencesLead` | kubernetes/splunk-operator/pkg/splunk/enterprise/configuration.go:781-859 | which holds for accepted specs whose volume names have no slash |
| `ConfReferences.EveryIndexHasRemotePath` | kubernetes/splunk-operator/pkg/splunk/enterprise/configuration.go:845-853 | every index of an accepted spec has a remote path, its own or the default |
| `BundlePush.Cluster.ApplyConfigMap` | kubernetes/splunk-operator/pkg/splunk/controller/configmap.go:29-58 | read, then update or create; creating what exists passes for success |
| `BundlePush.Cluster.ApplySmartstoreConfigMap` | kubernetes/splunk-operator/pkg/splunk/enterprise/util.go:203-223 | the configuration first, then the same with a fresh token |
| `BundlePush.ClusterMaster.CheckIfsmartstoreConfigMapUpdatedToPod` | kubernetes/splunk-operator/pkg/splunk/enterprise/clustermaster.go:182-206 | passes exactly when the pod's token can be read and is the ConfigMap's |
| `BundlePush.ClusterMaster.PerformCmBundlePush` | kubernetes/splunk-operator/pkg/splunk/enterprise/clustermaster.go:209-244 | when an attempt is made, what it does to the status, and when a push goes out |
| `BundlePush.ClusterMaster.ApplyClusterMaster` | kubernetes/splunk-operator/pkg/splunk/enterprise/clustermaster.go:35-152 | the reconcile: configuration, push flag, push, requeue |
| `BundleVerdicts.ReconcileEnds` | kubernetes/splunk-operator/pkg/splunk/enterprise/clustermaster.go:35-152 | the whole outcome from the status, the replies and the clock alone: what is applied, tried and pushed, in order; the flag, the last check and the configuration saved; the error; and whether it is queued again |
| `BundleVerdicts.MapEnds` | kubernetes/splunk-operator/pkg/splunk/enterprise/util.go:203-223 | what applying a configuration leaves in the ConfigMap, and when that is a change or an error |
| `PushPacing.AttemptsArePaced` | kubernetes/splunk-operator/pkg/splunk/enterprise/clustermaster.go:209-244 | over any run attempts are at least five seconds apart and after the last change, and only what the pod has is pushed |
| `PushPacing.FlagClearedByPush` | kubernetes/splunk-operator/pkg/splunk/enterprise/clustermaster.go:237-241 | in one reconcile the flag goes away only by a push that succeeded with equal tokens |
| `PushPacing.ClearedOnlyByPush` | kubernetes/splunk-operator/pkg/splunk/enterprise/clustermaster.go:143-244 | over any run, a flag that was set and is no longer set has been answered by an acknowledged push, and while it is set the resource stays queued |
| `PushPacing.DuePushHappens` | kubernetes/splunk-operator/pkg/splunk/enterprise/clustermaster.go:217-243 | with the flag set and the pod up to date, a push goes out exactly when five seconds have passed |
| `PushPacing.UnmarkedIsNeverPushed` | kubernetes/splunk-operator/pkg/splunk/enterprise/clustermaster.go:209-212 | a configuration that was not marked is never pushed by any run of reconciles for it |
| `PushDestiny.NewConfigurationGoes` | kubernetes/splunk-operator/pkg/splunk/enterprise/util.go:206-221 | over any run of reconciles for a new configuration with any reads and writes failing, up to the first that applies it: whether every, which, or no later run pushes anything, and what, as decided by what the failed ones left and the two reads of the last |
| `PushDestiny.DestinyMeans` | kubernetes/splunk-operator/pkg/splunk/enterprise/clustermaster.go:209-244 | a status with the flag set and a token stored is one from which some run pushes, and only what is stored; with the flag and no token a push stays due for ever and is never made; without the flag none is made |
| `PushDestiny.TriesLeave` | kubernetes/splunk-operator/pkg/splunk/controller/configmap.go:29-58 | failed reconciles change nothing but the ConfigMap, and what they leave there is determined by their reads and writes |
| `PushDestiny.TokenFailsOnce` | kubernetes/splunk-operator/pkg/splunk/enterprise/util.go:206-221 | a concrete run in which the new configuration is stored, and forgotten |
| `PushDestiny.SecondReadFails` | kubernetes/splunk-operator/pkg/splunk/enterprise/util.go:206-221 | a concrete run after which a push is due for ever |
| `PushDestiny.BothReadsFail` | kubernetes/splunk-operator/pkg/splunk/controller/configmap.go:47-55 | a concrete run after which the old configuration may be pushed, and the new one never |

## Left out

- The pod manager interface is one class with a kind, because its three implementations share the client and the status list.
- Sharing of slices: fields hold sequences, so that a merge leaves the stored and the revised template with one backing array is not captured; sorting itself is modelled in place on arrays.
- The managers' Update methods beyond their calls here: waiting for the cluster master, the captain or a first ready replica, which ends a reconcile as Pending without touching pods.
- Partial reconciles inside a re-key: one ApplyIdxcSecret pass is one step of a run, with indexers recreated between passes but not during one.
- ApplyShcSecret: its early continue also skips the admin password, so no exactly-once claim holds.
- AreRemoteVolumeKeysChanged: returns at the first unchanged tracked volume; its answer is an input of BundlePush.
- PeerUpdates.AllWantedIff: lists of variables in which none scales down, for which nothing is assumed of the texts; PeerVariables.AllUpdatedIff covers the others.
- PeerVariables.AllUpdatedIff: resources with at least one replica, as the defaults of all three kinds make sure.
- ApplyNamespaceScopedSecretObject inside ApplyIdxcSecret is one call that succeeds or fails; its own behaviour is in NamespaceSecret, and what its misreading leads to in MisreadSecret.
- Building StatefulSets, Services, probes and environment variables: long flat records.
- The REST client, pod exec and the Kubernetes client: each call is an outcome. Random tokens are arbitrary values.
- ApplySmartstoreConfigMap's server.conf part, labels, owner references and deletion of a resource.
- The 32-bit width of replica counts and ordinals; version numbers do wrap at 64 bits.
- Bytes and Unicode: strings are sequences of characters.
- Two configuration tokens taken in the same second are equal; a push then cannot tell them apart.
