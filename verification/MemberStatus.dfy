/**
 updateStatus of the indexer and search head managers: the status list is rewritten in place, grown
 and cut so that entry n describes pod n, whatever was there before.
 */
module MemberStatus {
  import opened Wrappers
  import opened Names
  import opened StatefulSets

  datatype MasterInfo = MasterInfo(initialized: bool, indexingReady: bool, serviceReady: bool, maintenanceMode: bool)

  /** A peer's status: besides what the managers look at, its bundle, its buckets, and whether it can be searched. */
  datatype Peer = Peer(member: Member, activeBundleId: string, bucketCount: int, searchable: bool)

  /** What the cluster master tells about peers, by pod name; a member is unnamed there. */
  type Peers = map<string, Peer>

  function PeerEntry(statefulSet: string, peers: Peers, n: nat): Peer {
    var name := PodName(statefulSet, n);
    if name in peers then peers[name].(member := peers[name].member.(name := name))
    else Peer(Member(name, "", "", 0, 0), "", 0, false)
  }

  /** `entry` says of the pod of that name what the cluster master's reply says of it, or nothing if it says nothing. */
  predicate TellsOfPeer(known: Peers, name: string, entry: Peer) {
    && entry.member.name == name
    && (if name in known then
          && entry.member.id == known[name].member.id
          && entry.member.status == known[name].member.status
          && entry.member.historicalSearches == known[name].member.historicalSearches
          && entry.member.realtimeSearches == known[name].member.realtimeSearches
          && entry.activeBundleId == known[name].activeBundleId
          && entry.bucketCount == known[name].bucketCount
          && entry.searchable == known[name].searchable
        else
          && entry.member.id == "" && entry.member.status == ""
          && entry.member.historicalSearches == 0 && entry.member.realtimeSearches == 0
          && entry.activeBundleId == "" && entry.bucketCount == 0 && !entry.searchable)
  }

  class IndexerStatus {
    var readyReplicas: nat
    var initialized: bool
    var indexingReady: bool
    var serviceReady: bool
    var maintenanceMode: bool
    var peers: seq<Peer>

    constructor (peers: seq<Peer>)
      ensures this.peers == peers
    {
      this.peers := peers;
      readyReplicas := 0;
      initialized, indexingReady, serviceReady, maintenanceMode := false, false, false, false;
    }

    /** `info` and `known` are the cluster master's replies, None for a failed request. */
    method UpdateStatus(statefulSet: string, replicas: nat, ready: nat, masterReady: bool,
                        info: Option<MasterInfo>, known: Option<Peers>) returns (failed: bool)
      modifies this
      ensures readyReplicas == ready
      ensures failed == !(masterReady && info.Some? && known.Some?)
      ensures failed ==> peers == old(peers)
      ensures !masterReady ==> !initialized && !indexingReady && !serviceReady && !maintenanceMode
      ensures masterReady && info.Some? ==>
        MasterInfo(initialized, indexingReady, serviceReady, maintenanceMode) == info.value
      ensures masterReady && info.None? ==>
        initialized == old(initialized) && indexingReady == old(indexingReady)
        && serviceReady == old(serviceReady) && maintenanceMode == old(maintenanceMode)
      ensures !failed ==>
        |peers| == replicas
        && forall n :: 0 <= n < replicas ==> TellsOfPeer(known.value, PodName(statefulSet, n), peers[n])
    {
      readyReplicas := ready;
      if !masterReady {
        initialized, indexingReady, serviceReady, maintenanceMode := false, false, false, false;
        return true;
      }
      if info.None? { return true; }
      initialized, indexingReady := info.value.initialized, info.value.indexingReady;
      serviceReady, maintenanceMode := info.value.serviceReady, info.value.maintenanceMode;
      if known.None? { return true; }

      var n := 0;
      while n < replicas
        invariant 0 <= n <= replicas && n <= |peers|
        invariant forall m :: 0 <= m < n ==> TellsOfPeer(known.value, PodName(statefulSet, m), peers[m])
        invariant readyReplicas == ready
        invariant MasterInfo(initialized, indexingReady, serviceReady, maintenanceMode) == info.value
      {
        var entry := PeerEntry(statefulSet, known.value, n);
        if n < |peers| {
          peers := peers[n := entry];
        } else {
          peers := peers + [entry];
        }
        n := n + 1;
      }
      if replicas < |peers| {
        peers := peers[..replicas];
      }
      return false;
    }
  }

  datatype CaptainInfo =
    CaptainInfo(name: string, serviceReady: bool, initialized: bool, minPeersJoined: bool, maintenanceMode: bool)

  /** A search head's status: besides what the managers look at, whether it is ad hoc and registered. */
  datatype Head = Head(member: Member, adhoc: bool, registered: bool)

  /** Replies of one search head: to the member query, then to the captain query. */
  datatype HeadReply = HeadReply(head: Option<Head>, captain: Option<CaptainInfo>)

  function HeadEntry(statefulSet: string, reply: HeadReply, n: nat): Head {
    var name := PodName(statefulSet, n);
    if reply.head.Some? then reply.head.value.(member := reply.head.value.member.(name := name, id := ""))
    else Head(Member(name, "", "", 0, 0), false, false)
  }

  /** `entry` says of the pod of that name what its search head answered, or nothing if that did not answer. */
  predicate TellsOfHead(reply: HeadReply, name: string, entry: Head) {
    && entry.member.name == name && entry.member.id == ""
    && match reply.head
       case Some(head) =>
         && entry.member.status == head.member.status
         && entry.member.historicalSearches == head.member.historicalSearches
         && entry.member.realtimeSearches == head.member.realtimeSearches
         && entry.adhoc == head.adhoc && entry.registered == head.registered
       case None =>
         && entry.member.status == "" && entry.member.historicalSearches == 0 && entry.member.realtimeSearches == 0
         && !entry.adhoc && !entry.registered
  }

  /** Search head `k` is the first to answer both queries. */
  predicate TellsFirst(replies: seq<HeadReply>, k: nat) {
    && k < |replies| && AnswersBoth(replies[k])
    && forall j :: 0 <= j < k ==> !AnswersBoth(replies[j])
  }

  predicate AnswersBoth(reply: HeadReply) {
    reply.head.Some? && reply.captain.Some?
  }

  class SearchHeadStatus {
    var readyReplicas: nat
    var captain: CaptainInfo
    var members: seq<Head>

    constructor (members: seq<Head>)
      ensures this.members == members
    {
      this.members := members;
      readyReplicas, captain := 0, CaptainInfo("", false, false, false, false);
    }

    /** `replies[n]` is what search head n answers; one per pod the StatefulSet reports. */
    method UpdateStatus(statefulSet: string, ready: nat, replies: seq<HeadReply>)
      modifies this
      ensures readyReplicas == ready
      ensures ready == 0 ==> members == old(members) && captain == old(captain).(name := "", serviceReady := false)
      ensures ready > 0 ==>
        && |members| == |replies|
        && forall n :: 0 <= n < |replies| ==> TellsOfHead(replies[n], PodName(statefulSet, n), members[n])
      ensures ready > 0 && (forall k :: 0 <= k < |replies| ==> !AnswersBoth(replies[k])) ==>
        captain == old(captain).(name := "", serviceReady := false)
      ensures ready > 0 ==> forall k: nat :: TellsFirst(replies, k) ==> captain == replies[k].captain.value
    {
      captain := captain.(name := "", serviceReady := false);
      readyReplicas := ready;
      if ready == 0 { return; }

      var gotCaptain := false;
      var n := 0;
      while n < |replies|
        invariant 0 <= n <= |replies| && n <= |members|
        invariant readyReplicas == ready
        invariant forall m :: 0 <= m < n ==> TellsOfHead(replies[m], PodName(statefulSet, m), members[m])
        invariant !gotCaptain ==> captain == old(captain).(name := "", serviceReady := false)
        invariant gotCaptain <==> exists k :: 0 <= k < n && AnswersBoth(replies[k])
        invariant forall k: nat :: k < n && TellsFirst(replies, k) ==> captain == replies[k].captain.value
      {
        var reply := replies[n];
        if reply.head.Some? && !gotCaptain && reply.captain.Some? {
          captain := reply.captain.value;
          gotCaptain := true;
        }
        var entry := HeadEntry(statefulSet, reply, n);
        if n < |members| {
          members := members[n := entry];
        } else {
          members := members + [entry];
        }
        n := n + 1;
      }
      if |replies| < |members| {
        members := members[..|replies|];
      }
    }
  }

  /** Pod names tell the entries apart: entry n is about pod n and about no other. */
  lemma EntriesAreDistinct(statefulSet: string, known: Peers, entry: Peer, n: nat, m: nat)
    requires TellsOfPeer(known, PodName(statefulSet, n), entry)
    ensures entry.member.name == PodName(statefulSet, m) <==> n == m
  {
    if PodName(statefulSet, n) == PodName(statefulSet, m) {
      PodNameInjective(statefulSet, n, m);
    }
  }
}
