/**
 The operator running against a live cluster.

 A state holds the cluster and the operator's place in its current reconcile; an event is one step
 of either. Between any two calls of a reconcile the environment may recreate, change or remove
 pods, Splunk may report anything, users may change the spec, and the operator may be killed. Every
 sequence of events is a run: an event that cannot happen in a state leaves it as it is.
 */
module Operation {
  import opened Wrappers
  import opened Names
  import opened StatefulSets

  datatype Config = Config(kind: Kind, name: string, templates: seq<Template>)

  /** The cluster: the stored StatefulSet, its pods and claims, Splunk's members, and the user's wishes. */
  datatype World = World(
    replicas: nat,
    stsVersion: nat,
    revision: string,
    pods: map<nat, Pod>,
    nextUid: nat,
    members: map<nat, Member>,
    claims: set<Claim>,
    spec: nat,
    factor: nat)

  /** Where the operator is; `version` is the resource version of the StatefulSet it holds, if current once. */
  datatype Operator =
    | Idle
    | Reading(v: View, version: Option<nat>, count: nat)
    | Running(v: View, version: Option<nat>, pc: Pc, seen: map<nat, Pod>, acked: seq<Call>)

  /**
   What the run has done so far: pods the operator deleted that are still missing, and members it took
   out of service that have not been Up since, as long as their ordinals are wanted; and pods the
   environment has touched since the reconcile began.
   */
  datatype History = History(orphaned: set<nat>, offline: set<nat>, touched: set<nat>)

  datatype State = State(cfg: Config, w: World, op: Operator, h: History)

  datatype Event =
    | Begin(readyReplicas: nat, count: nat, revisionKnown: bool, cached: Option<nat>)
    | ReadMember(reached: bool)
    | MakeCall(fate: Fate)
    | Return
    | Crash
    | CreatePod(n: nat)
    | ChangePod(n: nat, running: bool, containers: seq<bool>)
    | RemovePod(n: nat)
    | CreateClaim(template: Template, n: nat)
    | Report(n: nat, member: Member)
    | SetSpec(replicas: nat)
    | SetFactor(factor: nat)
    | SetRevision(revision: string)

  /** The replica count a reconcile works towards, after the defaults and verifyRFPeers. */
  function Desired(kind: Kind, spec: nat, factor: nat): nat {
    match kind
    case Plain => spec
    case Indexer => var atLeastOne := if spec == 0 then 1 else spec;
      if atLeastOne < factor then factor else atLeastOne
    case SearchHead => if spec < 3 then 3 else spec
  }

  /** A call's effect on the cluster; None when the server turns it down. */
  function Effect(w: World, call: Call, version: Option<nat>): Option<World> {
    match call
    case GetPod(n) => if n in w.pods then Some(w) else None
    case DeletePod(n, uid, version) =>
      if n in w.pods && w.pods[n].uid == uid && w.pods[n].version == version
      then Some(w.(pods := w.pods - {n})) else None
    case UpdateReplicas(k) =>
      if version == Some(w.stsVersion) then Some(w.(replicas := k, stsVersion := w.stsVersion + 1)) else None
    case GetClaim(claim) => if claim in w.claims then Some(w) else None
    case DeleteClaim(claim) => if claim in w.claims then Some(w.(claims := w.claims - {claim})) else None
    case Decommission(n, _) =>
      if n in w.members
      then Some(w.(members := w.members[n := w.members[n].(status := "Decommissioning")])) else None
    case SetDetention(n, detained) =>
      if n in w.members
      then Some(w.(members := w.members[n := w.members[n].(status := if detained then "ManualDetention" else "Up")]))
      else None
    case RemovePeer(id) => Some(w.(members := map n | n in w.members && w.members[n].id != id :: w.members[n]))
    case RemoveMember(n) => Some(w.(members := w.members - {n}))
    case RemoveUnwantedSecrets => Some(w)
  }

  function ReplyTo(w: World, call: Call): Reply {
    match call
    case GetPod(n) => if n in w.pods then Found(w.pods[n]) else Failed
    case _ => Ok
  }

  function StillWanted(ordinals: set<nat>, replicas: nat): set<nat> {
    set n | n in ordinals && n < replicas
  }

  /** The history after a call that took effect. */
  function Record(h: History, call: Call): History {
    match call
    case DeletePod(n, _, _) => h.(orphaned := h.orphaned + {n})
    case Decommission(n, _) => h.(offline := h.offline + {n})
    case SetDetention(n, detained) => h.(offline := if detained then h.offline + {n} else h.offline - {n})
    case UpdateReplicas(k) =>
      h.(orphaned := StillWanted(h.orphaned, k), offline := StillWanted(h.offline, k))
    case _ => h
  }

  function BlankMember(cfg: Config, n: nat): Member {
    Member(PodName(cfg.name, n), "", "", 0, 0)
  }

  /** One entry of updateStatus: the member's own report, or a blank when it cannot be had. Search heads have no ID. */
  function ReadStatus(s: State, n: nat, reached: bool): Member {
    if reached && n in s.w.members then
      var member := s.w.members[n].(name := PodName(s.cfg.name, n));
      if s.cfg.kind.SearchHead? then member.(id := "") else member
    else BlankMember(s.cfg, n)
  }

  function ApplyBegin(s: State, e: Event): State
    requires e.Begin?
  {
    if !s.op.Idle? || e.count < e.readyReplicas then s
    else
      var v := View(s.cfg.kind, s.cfg.name, s.cfg.templates,
                    if e.cached.Some? then e.cached.value else s.w.replicas, e.readyReplicas,
                    if e.revisionKnown then s.w.revision else "",
                    Desired(s.cfg.kind, s.w.spec, s.w.factor), []);
      var version := if e.cached.Some? then None else Some(s.w.stsVersion);
      var h := s.h.(touched := {});
      if s.cfg.kind.Plain? then s.(op := Running(v, version, Start(v), map[], []), h := h)
      else if e.readyReplicas == 0 then s
      else s.(op := Reading(v, version, e.count), h := h)
  }

  function ApplyRead(s: State, reached: bool): State {
    if !s.op.Reading? || s.op.count < s.op.v.readyReplicas || |s.op.v.members| >= s.op.count then s
    else
      var v := s.op.v.(members := s.op.v.members + [ReadStatus(s, |s.op.v.members|, reached)]);
      if |v.members| < s.op.count then s.(op := Reading(v, s.op.version, s.op.count))
      else s.(op := Running(v, s.op.version, Start(v), map[], []))
  }

  function ApplyCall(s: State, fate: Fate): State {
    if !s.op.Running? || s.op.pc.Done? || !Fits(s.op.v, s.op.pc) then s
    else
      var op := s.op;
      var call := Issue(op.v, op.pc);
      var effect := Effect(s.w, call, op.version);
      var happens := effect.Some? && !fate.Refused?;
      var reply := if effect.Some? && fate.Acked? then ReplyTo(s.w, call) else Failed;
      s.(w := if happens then effect.value else s.w,
         h := if happens then Record(s.h, call) else s.h,
         op := Running(op.v, op.version, Step(op.v, op.pc, reply),
                       if reply.Found? && op.pc.AtGetPod? then op.seen[op.pc.n := reply.pod] else op.seen,
                       if reply.Failed? then op.acked else op.acked + [call]))
  }

  function ApplyEnvironment(s: State, e: Event): State {
    match e
    case CreatePod(n) =>
      if n in s.w.pods || n >= s.w.replicas then s
      else s.(w := s.w.(pods := s.w.pods[n := Pod(s.w.nextUid, 0, false, [], s.w.revision)],
                        nextUid := s.w.nextUid + 1),
              h := s.h.(orphaned := s.h.orphaned - {n}, touched := s.h.touched + {n}))
    case ChangePod(n, running, containers) =>
      if n !in s.w.pods then s
      else
        var pod := s.w.pods[n].(version := s.w.pods[n].version + 1, running := running, containers := containers);
        s.(w := s.w.(pods := s.w.pods[n := pod]), h := s.h.(touched := s.h.touched + {n}))
    case RemovePod(n) => s.(w := s.w.(pods := s.w.pods - {n}), h := s.h.(touched := s.h.touched + {n}))
    case CreateClaim(template, n) =>
      if n >= s.w.replicas then s
      else s.(w := s.w.(claims := s.w.claims + {ClaimOf(template, s.cfg.name, n)}))
    case Report(n, member) =>
      s.(w := s.w.(members := s.w.members[n := member]),
         h := if member.status == "Up" then s.h.(offline := s.h.offline - {n}) else s.h)
    case SetSpec(k) => s.(w := s.w.(spec := k))
    case SetFactor(k) => s.(w := s.w.(factor := k))
    case SetRevision(r) => s.(w := s.w.(revision := r))
    case _ => s
  }

  function Apply(s: State, e: Event): State {
    match e
    case Begin(_, _, _, _) => ApplyBegin(s, e)
    case ReadMember(reached) => ApplyRead(s, reached)
    case MakeCall(fate) => ApplyCall(s, fate)
    case Return => if s.op.Running? && s.op.pc.Done? then s.(op := Idle) else s
    case Crash => s.(op := Idle)
    case _ => ApplyEnvironment(s, e)
  }

  function Run(s: State, events: seq<Event>): State {
    if events == [] then s
    else Apply(Run(s, events[..|events| - 1]), events[|events| - 1])
  }

  lemma {:induction false} RunAppend(s: State, a: seq<Event>, b: seq<Event>)
    ensures Run(s, a + b) == Run(Run(s, a), b)
    decreases |b|
  {
    if b == [] {
      assert a + b == a;
    } else {
      var k := |b| - 1;
      assert (a + b)[..|a| + k] == a + b[..k];
      RunAppend(s, a, b[..k]);
    }
  }

  lemma {:induction false} RunCons(s: State, e: Event, events: seq<Event>)
    ensures Run(s, [e] + events) == Run(Apply(s, e), events)
    decreases |events|
  {
    if events == [] {
      assert ([e] + events)[..0] == [];
    } else {
      var k := |events| - 1;
      assert ([e] + events)[..k + 1] == [e] + events[..k];
      RunCons(s, e, events[..k]);
    }
  }

  lemma RunSnoc(s: State, events: seq<Event>, e: Event)
    ensures Run(s, events + [e]) == Apply(Run(s, events), e)
  {
    assert (events + [e])[..|events|] == events;
  }

  /** Nothing has happened yet. */
  ghost predicate Fresh(s: State) {
    && s.op.Idle?
    && s.h == History({}, {}, {})
    && forall n <- s.w.pods :: s.w.pods[n].uid < s.w.nextUid
  }
}
