/**
 Which volume claims a scale-down leaves behind: exactly those its calls did not get to, whatever else
 happens in between.
 */
module ScaleDownClaims {
  import opened Wrappers
  import opened Names
  import opened StatefulSets
  import opened Operation

  /** The operator is not killed, and the reconcile not left, before the end. */
  predicate Within(events: seq<Event>) {
    forall i :: 0 <= i < |events| ==> !events[i].Crash? && !events[i].Return?
  }

  /** How the operator's calls go, in order. */
  function CallFates(events: seq<Event>): seq<Fate> {
    if events == [] then []
    else if events[0].MakeCall? then [events[0].fate] + CallFates(events[1..])
    else CallFates(events[1..])
  }

  /** The claim of template `i` for ordinal `n`. */
  function ClaimAt(v: View, n: nat, i: nat): Claim
    requires i < |v.templates|
  {
    ClaimOf(v.templates[i], v.name, n)
  }

  /** What is left once the claims from template `i` on have been read and deleted in turn, as far as the calls go. */
  function Left(v: View, n: nat, i: nat, claims: set<Claim>, fates: seq<Fate>): set<Claim>
    decreases |fates|
  {
    if i >= |v.templates| || |fates| < 2 then claims
    else if ClaimAt(v, n, i) !in claims || !fates[0].Acked? || fates[1].Refused? then claims
    else if fates[1].Lost? then claims - {ClaimAt(v, n, i)}
    else Left(v, n, i + 1, claims - {ClaimAt(v, n, i)}, fates[2..])
  }

  /** The same claims of ordinal `n`. */
  ghost predicate SameClaims(v: View, n: nat, a: set<Claim>, b: set<Claim>) {
    forall k :: 0 <= k < |v.templates| ==> (ClaimAt(v, n, k) in a <==> ClaimAt(v, n, k) in b)
  }

  /** Between the calls, claims are created for ordinals below the replica count only. */
  lemma OthersWait(s: State, n: nat, e: Event)
    requires s.op.Running? && !e.MakeCall? && !e.Crash? && !e.Return? && s.op.v.name == s.cfg.name
    ensures var t := Apply(s, e);
      t.op == s.op && t.cfg == s.cfg && t.w.replicas == s.w.replicas && s.w.claims <= t.w.claims
    ensures s.w.replicas <= n ==> SameClaims(s.op.v, n, Apply(s, e).w.claims, s.w.claims)
  {
    if e.CreateClaim? && e.n < s.w.replicas <= n {
      forall k | 0 <= k < |s.op.v.templates| ensures ClaimAt(s.op.v, n, k) != ClaimOf(e.template, s.cfg.name, e.n) {
        if ClaimAt(s.op.v, n, k) == ClaimOf(e.template, s.cfg.name, e.n) {
          ClaimNameInjective(s.op.v.templates[k].name, e.template.name, s.cfg.name, n, e.n);
        }
      }
    }
  }

  /** What is left of ordinal `n` depends on nothing else. */
  lemma {:induction false} LeftAgrees(v: View, n: nat, i: nat, a: set<Claim>, b: set<Claim>, fates: seq<Fate>)
    requires DistinctTemplates(v) && SameClaims(v, n, a, b)
    ensures SameClaims(v, n, Left(v, n, i, a, fates), Left(v, n, i, b, fates))
    decreases |fates|
  {
    if i < |v.templates| && |fates| >= 2 {
      LeftAgrees(v, n, i + 1, a - {ClaimAt(v, n, i)}, b - {ClaimAt(v, n, i)}, fates[2..]);
    }
  }

  lemma RunHead(s: State, events: seq<Event>)
    requires events != []
    ensures Run(s, events) == Run(Apply(s, events[0]), events[1..])
  {
    assert events == [events[0]] + events[1..];
    RunCons(s, events[0], events[1..]);
  }

  lemma {:induction false} DoneLeavesClaims(s: State, n: nat, events: seq<Event>)
    requires s.op.Running? && s.op.pc.Done? && Within(events) && s.op.v.name == s.cfg.name
    ensures Run(s, events).w.replicas == s.w.replicas && s.w.claims <= Run(s, events).w.claims
    ensures s.w.replicas <= n ==> SameClaims(s.op.v, n, Run(s, events).w.claims, s.w.claims)
    decreases |events|
  {
    if events != [] {
      RunHead(s, events);
      if !events[0].MakeCall? {
        OthersWait(s, n, events[0]);
      }
      DoneLeavesClaims(Apply(s, events[0]), n, events[1..]);
    }
  }

  /** The machine stands before template `i`, or is done with all of them. */
  predicate AtTemplate(s: State, n: nat, i: nat) {
    s.op.Running? && s.op.pc == NextClaim(s.op.v, n, i)
  }

  lemma ReadCall(s: State, n: nat, i: nat, fate: Fate)
    requires AtTemplate(s, n, i) && i < |s.op.v.templates|
    ensures var t := ApplyCall(s, fate);
      && t.cfg == s.cfg && t.op.Running? && t.op.v == s.op.v && t.w.claims == s.w.claims && t.w.replicas == s.w.replicas
      && t.op.pc == (if ClaimAt(s.op.v, n, i) in s.w.claims && fate.Acked? then AtDeleteClaim(n, i)
                     else Done(Error, true))
  {
  }

  lemma DeleteCall(s: State, n: nat, i: nat, fate: Fate)
    requires s.op.Running? && s.op.pc == AtDeleteClaim(n, i) && i < |s.op.v.templates|
    requires ClaimAt(s.op.v, n, i) in s.w.claims
    ensures var t := ApplyCall(s, fate);
      && t.cfg == s.cfg && t.op.Running? && t.op.v == s.op.v && t.w.replicas == s.w.replicas
      && t.w.claims == (if fate.Refused? then s.w.claims else s.w.claims - {ClaimAt(s.op.v, n, i)})
      && (fate.Acked? ==> AtTemplate(t, n, i + 1)) && (!fate.Acked? ==> t.op.pc.Done?)
  {
  }

  lemma {:induction false} ReadsAndDeletes(s: State, n: nat, i: nat, events: seq<Event>)
    requires AtTemplate(s, n, i) && Within(events) && s.w.replicas == n
    requires s.op.v.name == s.cfg.name && DistinctTemplates(s.op.v)
    ensures SameClaims(s.op.v, n, Run(s, events).w.claims, Left(s.op.v, n, i, s.w.claims, CallFates(events)))
    ensures Run(s, events).w.replicas == n
    decreases |events|
  {
    if i >= |s.op.v.templates| {
      DoneLeavesClaims(s, n, events);
    } else if events != [] {
      RunHead(s, events);
      var t := Apply(s, events[0]);
      if !events[0].MakeCall? {
        OthersWait(s, n, events[0]);
        ReadsAndDeletes(t, n, i, events[1..]);
        LeftAgrees(s.op.v, n, i, t.w.claims, s.w.claims, CallFates(events));
      } else {
        ReadCall(s, n, i, events[0].fate);
        if t.op.pc.Done? {
          DoneLeavesClaims(t, n, events[1..]);
        } else {
          Deletes(t, n, i, events[1..]);
        }
      }
    }
  }

  lemma {:induction false} Deletes(s: State, n: nat, i: nat, events: seq<Event>)
    requires s.op.Running? && s.op.pc == AtDeleteClaim(n, i) && i < |s.op.v.templates| && s.w.replicas == n
    requires ClaimAt(s.op.v, n, i) in s.w.claims && Within(events)
    requires s.op.v.name == s.cfg.name && DistinctTemplates(s.op.v)
    ensures SameClaims(s.op.v, n, Run(s, events).w.claims, Left(s.op.v, n, i, s.w.claims, [Acked] + CallFates(events)))
    ensures Run(s, events).w.replicas == n
    decreases |events|
  {
    if events != [] {
      RunHead(s, events);
      var t := Apply(s, events[0]);
      if !events[0].MakeCall? {
        OthersWait(s, n, events[0]);
        Deletes(t, n, i, events[1..]);
        LeftAgrees(s.op.v, n, i, t.w.claims, s.w.claims, [Acked] + CallFates(events));
      } else {
        DeleteCall(s, n, i, events[0].fate);
        assert ([Acked] + CallFates(events))[2..] == CallFates(events[1..]);
        if events[0].fate.Acked? {
          ReadsAndDeletes(t, n, i + 1, events[1..]);
        } else {
          DoneLeavesClaims(t, n, events[1..]);
        }
      }
    }
  }

  ghost predicate DistinctTemplates(v: View) {
    forall i, j :: 0 <= i < j < |v.templates| ==> v.templates[i] != v.templates[j]
  }

  /** Counting calls from template `i`: claim `k` was there, and reading and deleting it were acknowledged. */
  predicate Handled(v: View, n: nat, i: nat, k: nat, claims: set<Claim>, fates: seq<Fate>)
    requires i <= k < |v.templates|
  {
    && 2 * (k - i) + 1 < |fates| && ClaimAt(v, n, k) in claims
    && fates[2 * (k - i)].Acked? && fates[2 * (k - i) + 1].Acked?
  }

  /**
   The claims from `i` up to `j` were handled, and claim `j` was there, was read, and its deletion was not
   refused: it may have been carried out unseen.
   */
  ghost predicate Cleared(v: View, n: nat, i: nat, j: nat, claims: set<Claim>, fates: seq<Fate>)
    requires i <= j < |v.templates|
  {
    && (forall k :: i <= k < j ==> Handled(v, n, i, k, claims, fates))
    && 2 * (j - i) + 1 < |fates| && ClaimAt(v, n, j) in claims
    && fates[2 * (j - i)].Acked? && !fates[2 * (j - i) + 1].Refused?
  }

  lemma ClaimsDiffer(v: View, n: nat, i: nat, j: nat)
    requires DistinctTemplates(v) && i < j < |v.templates|
    ensures ClaimAt(v, n, i) != ClaimAt(v, n, j)
  {
    if ClaimAt(v, n, i) == ClaimAt(v, n, j) {
      ClaimNameInjective(v.templates[i].name, v.templates[j].name, v.name, n, n);
      assert false;
    }
  }

  lemma {:induction false} LeftIff(v: View, n: nat, i: nat, j: nat, claims: set<Claim>, fates: seq<Fate>)
    requires DistinctTemplates(v) && i <= j < |v.templates|
    ensures ClaimAt(v, n, j) in Left(v, n, i, claims, fates) <==>
      ClaimAt(v, n, j) in claims && !Cleared(v, n, i, j, claims, fates)
    decreases |fates|
  {
    if i < j {
      ClaimsDiffer(v, n, i, j);
    }
    if |fates| >= 2 && ClaimAt(v, n, i) in claims && fates[0].Acked? && fates[1].Acked? {
      var rest, more := claims - {ClaimAt(v, n, i)}, fates[2..];
      if i < j {
        LeftIff(v, n, i + 1, j, rest, more);
        ClearedShifts(v, n, i, j, claims, fates);
      } else {
        StaysGone(v, n, i + 1, rest, more, ClaimAt(v, n, i));
      }
    } else if i < j {
      assert !Handled(v, n, i, i, claims, fates);
    }
  }

  lemma ClearedShifts(v: View, n: nat, i: nat, j: nat, claims: set<Claim>, fates: seq<Fate>)
    requires DistinctTemplates(v) && i < j < |v.templates| && |fates| >= 2
    requires ClaimAt(v, n, i) in claims && fates[0].Acked? && fates[1].Acked?
    ensures Cleared(v, n, i, j, claims, fates) <==> Cleared(v, n, i + 1, j, claims - {ClaimAt(v, n, i)}, fates[2..])
  {
    var rest, more := claims - {ClaimAt(v, n, i)}, fates[2..];
    forall k: nat | i < k <= j
      ensures Handled(v, n, i, k, claims, fates) <==> Handled(v, n, i + 1, k, rest, more)
    {
      ClaimsDiffer(v, n, i, k);
    }
    ClaimsDiffer(v, n, i, j);
    assert Handled(v, n, i, i, claims, fates);
    var at := 2 * (j - i);
    assert 2 * (j - (i + 1)) == at - 2;
    if at + 1 < |fates| {
      assert fates[at] == more[at - 2] && fates[at + 1] == more[at - 1];
    }
    if Cleared(v, n, i, j, claims, fates) {
      var next := i + 1;
      forall k: nat | next <= k < j ensures Handled(v, n, next, k, rest, more) {
        assert Handled(v, n, i, k, claims, fates);
      }
    }
    if Cleared(v, n, i + 1, j, rest, more) {
      forall k: nat | i <= k < j ensures Handled(v, n, i, k, claims, fates) {
        assert k > i ==> Handled(v, n, i + 1, k, rest, more);
      }
    }
  }

  lemma {:induction false} StaysGone(v: View, n: nat, i: nat, claims: set<Claim>, fates: seq<Fate>, claim: Claim)
    ensures Left(v, n, i, claims, fates) <= claims
    ensures claim !in claims ==> claim !in Left(v, n, i, claims, fates)
    decreases |fates|
  {
    if i < |v.templates| && |fates| >= 2 {
      StaysGone(v, n, i + 1, claims - {ClaimAt(v, n, i)}, fates[2..], claim);
    }
  }

  /** The write that shrinks the StatefulSet. */
  lemma ShrinkCall(s: State, n: nat, fate: Fate)
    requires s.op.Running? && s.op.pc == AtScaleDown(n) && s.op.version == Some(s.w.stsVersion)
    ensures var t := ApplyCall(s, fate);
      && t.cfg == s.cfg && t.op.Running? && t.op.v == s.op.v && t.w.claims == s.w.claims
      && t.w.replicas == (if fate.Refused? then s.w.replicas else n)
      && (fate.Acked? ==> AtTemplate(t, n, 0)) && (!fate.Acked? ==> t.op.pc.Done?)
  {
  }

  /**
   From the write of a scale-down to `n` on, whatever happens between the calls, claims created for
   ordinals that are wanted included. If the write takes effect, the claim of template `j` is left
   exactly if it was there and the calls did not get to it. They get to it if the write, and the reads
   and deletions of all claims before it, are acknowledged, its own is read, and its deletion is not
   refused. If the write is refused, nothing goes.
   */
  lemma ClaimIsLeftIff(s: State, n: nat, j: nat, write: Fate, events: seq<Event>)
    requires s.op.Running? && s.op.pc == AtScaleDown(n) && s.op.version == Some(s.w.stsVersion)
    requires s.op.v.name == s.cfg.name && DistinctTemplates(s.op.v) && j < |s.op.v.templates| && Within(events)
    ensures var t, claim := Run(s, [MakeCall(write)] + events), ClaimAt(s.op.v, n, j);
      if write.Refused? then t.w.replicas == s.w.replicas && s.w.claims <= t.w.claims
      else
        && t.w.replicas == n
        && (claim in t.w.claims <==>
              claim in s.w.claims
              && !(write.Acked? && Cleared(s.op.v, n, 0, j, s.w.claims, CallFates(events))))
  {
    var t := Apply(s, MakeCall(write));
    RunCons(s, MakeCall(write), events);
    ShrinkCall(s, n, write);
    if write.Acked? {
      ReadsAndDeletes(t, n, 0, events);
      LeftIff(s.op.v, n, 0, j, s.w.claims, CallFates(events));
    } else {
      DoneLeavesClaims(t, n, events);
    }
  }

  /** A run that leaves a claim: the deletion is refused after the StatefulSet has shrunk. */
  lemma ClaimIsLeft() returns (s: State, events: seq<Event>, claim: Claim)
    ensures Fresh(s) && claim in s.w.claims
    ensures |s.cfg.templates| == 1 && claim == ClaimOf(s.cfg.templates[0], s.cfg.name, 1)
    ensures Run(s, events).w.replicas == 1 && claim in Run(s, events).w.claims
  {
    var template := Template("ns", "var");
    claim := ClaimOf(template, "sts", 1);
    var w := World(2, 0, "", map[], 0, map[], {claim}, 1, 0);
    s := State(Config(Plain, "sts", [template]), w, Idle, History({}, {}, {}));
    var begin := Begin(2, 2, true, None);
    var t := Apply(s, begin);
    var rest := [MakeCall(Acked), MakeCall(Refused)];
    ClaimIsLeftIff(t, 1, 0, Acked, rest);
    assert CallFates(rest) == [Acked, Refused];
    RunCons(s, begin, [MakeCall(Acked)] + rest);
    events := [begin] + ([MakeCall(Acked)] + rest);
  }
}
