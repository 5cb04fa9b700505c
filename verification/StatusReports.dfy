/**
 The lists updateStatus leaves are what a reconcile of the running cluster reads: when the replies report the
 cluster as it is, reading its members one by one gives the members of the list, entry by entry.
 */
module StatusReports {
  import opened Wrappers
  import opened Names
  import opened StatefulSets
  import opened MemberStatus
  import opened Operation

  /** A reply says of a member what is so; names are not part of it. */
  predicate Reports(said: Member, member: Member) {
    said.id == member.id && SaysOfHead(said, member)
  }

  /** ... and search heads have no ID to tell. */
  predicate SaysOfHead(said: Member, member: Member) {
    && said.status == member.status
    && said.historicalSearches == member.historicalSearches && said.realtimeSearches == member.realtimeSearches
  }

  /** The cluster master knows peers of the cluster only, and reports them as they are. */
  ghost predicate PeersReported(s: State, known: Peers) {
    forall n: nat :: PodName(s.cfg.name, n) in known ==>
      n in s.w.members && Reports(known[PodName(s.cfg.name, n)].member, s.w.members[n])
  }

  /** A search head that answers is a member of the cluster, and reports itself as it is. */
  ghost predicate HeadReported(s: State, n: nat, reply: HeadReply) {
    reply.head.Some? ==> n in s.w.members && SaysOfHead(reply.head.value.member, s.w.members[n])
  }

  /** Entry n of an indexer cluster's list is what is read of member n: reached if the reply has it. */
  lemma PeerIsRead(s: State, known: Peers, entry: Peer, n: nat)
    requires s.cfg.kind.Indexer? && PeersReported(s, known) && TellsOfPeer(known, PodName(s.cfg.name, n), entry)
    ensures entry.member == ReadStatus(s, n, PodName(s.cfg.name, n) in known)
  {
  }

  /** Entry n of a search head cluster's list is what is read of member n: reached if it answered. */
  lemma HeadIsRead(s: State, reply: HeadReply, entry: Head, n: nat)
    requires s.cfg.kind.SearchHead? && HeadReported(s, n, reply) && TellsOfHead(reply, PodName(s.cfg.name, n), entry)
    ensures entry.member == ReadStatus(s, n, reply.head.Some?)
  {
  }

  /** A reconcile is about to read its members, and has read the first of `members`, in order. */
  predicate HasRead(s: State, members: seq<Member>) {
    s.op.Reading? && s.op.v.readyReplicas <= s.op.count == |members| && s.op.v.members <= members
      && |s.op.v.members| < |members|
  }

  /** Member `n` of the list is what is read of it when it is reached, or not, as `reached` says. */
  ghost predicate AreRead(s: State, members: seq<Member>, reached: nat -> bool) {
    forall n :: 0 <= n < |members| ==> members[n] == ReadStatus(s, n, reached(n))
  }

  /** The reads of the members from `n` up to `count`. */
  function Reads(n: nat, count: nat, reached: nat -> bool): seq<Event>
    decreases count - n
  {
    if n >= count then [] else [ReadMember(reached(n))] + Reads(n + 1, count, reached)
  }

  /** One read adds the next entry of the list; the last one starts the reconcile. */
  lemma OneIsRead(s: State, members: seq<Member>, reached: bool)
    requires HasRead(s, members)
    requires members[|s.op.v.members|] == ReadStatus(s, |s.op.v.members|, reached)
    ensures var n, t := |s.op.v.members|, ApplyRead(s, reached);
      var v := s.op.v.(members := members[..n + 1]);
      t == s.(op := if n + 1 < |members| then Reading(v, s.op.version, s.op.count)
                    else Running(v, s.op.version, Start(v), map[], []))
  {
    var n := |s.op.v.members|;
    assert s.op.v.members + [members[n]] == members[..n + 1];
  }

  /** Reading the members one by one ends with the list itself, and the reconcile starts from it. */
  lemma {:induction false} ListIsRead(s: State, members: seq<Member>, reached: nat -> bool)
    requires HasRead(s, members) && AreRead(s, members, reached)
    ensures var v := s.op.v.(members := members);
      Run(s, Reads(|s.op.v.members|, |members|, reached))
        == s.(op := Running(v, s.op.version, Start(v), map[], []))
    decreases |members| - |s.op.v.members|
  {
    var n := |s.op.v.members|;
    var t := Apply(s, ReadMember(reached(n)));
    OneIsRead(s, members, reached(n));
    RunCons(s, ReadMember(reached(n)), Reads(n + 1, |members|, reached));
    if n + 1 < |members| {
      forall k | 0 <= k < |members| ensures members[k] == ReadStatus(t, k, reached(k)) {
        assert ReadStatus(t, k, reached(k)) == ReadStatus(s, k, reached(k));
      }
      ListIsRead(t, members, reached);
    } else {
      assert members[..n + 1] == members;
    }
  }

  function PeerMembers(peers: seq<Peer>): seq<Member> {
    seq(|peers|, i requires 0 <= i < |peers| => peers[i].member)
  }

  function HeadMembers(heads: seq<Head>): seq<Member> {
    seq(|heads|, i requires 0 <= i < |heads| => heads[i].member)
  }

  /** What IndexerStatus.UpdateStatus leaves is what the reconcile of an indexer cluster then decides from. */
  lemma PeersAreRead(s: State, known: Peers, peers: seq<Peer>)
    requires s.cfg.kind.Indexer? && PeersReported(s, known)
    requires forall n :: 0 <= n < |peers| ==> TellsOfPeer(known, PodName(s.cfg.name, n), peers[n])
    requires s.op.Reading? && s.op.v.members == [] && s.op.v.readyReplicas <= s.op.count == |peers| && peers != []
    ensures var reached := (n: nat) => PodName(s.cfg.name, n) in known;
      var v := s.op.v.(members := PeerMembers(peers));
      Run(s, Reads(0, |peers|, reached)) == s.(op := Running(v, s.op.version, Start(v), map[], []))
  {
    var reached := (n: nat) => PodName(s.cfg.name, n) in known;
    forall n | 0 <= n < |peers| ensures peers[n].member == ReadStatus(s, n, reached(n)) {
      PeerIsRead(s, known, peers[n], n);
    }
    ListIsRead(s, PeerMembers(peers), reached);
  }

  /** What SearchHeadStatus.UpdateStatus leaves is what the reconcile of a search head cluster then decides from. */
  lemma HeadsAreRead(s: State, replies: seq<HeadReply>, heads: seq<Head>)
    requires s.cfg.kind.SearchHead? && |heads| == |replies|
    requires forall n :: 0 <= n < |heads| ==>
      HeadReported(s, n, replies[n]) && TellsOfHead(replies[n], PodName(s.cfg.name, n), heads[n])
    requires s.op.Reading? && s.op.v.members == [] && s.op.v.readyReplicas <= s.op.count == |heads| && heads != []
    ensures var reached := (n: nat) => n < |replies| && replies[n].head.Some?;
      var v := s.op.v.(members := HeadMembers(heads));
      Run(s, Reads(0, |heads|, reached)) == s.(op := Running(v, s.op.version, Start(v), map[], []))
  {
    var reached := (n: nat) => n < |replies| && replies[n].head.Some?;
    forall n | 0 <= n < |heads| ensures heads[n].member == ReadStatus(s, n, reached(n)) {
      HeadIsRead(s, replies[n], heads[n], n);
    }
    ListIsRead(s, HeadMembers(heads), reached);
  }
}
