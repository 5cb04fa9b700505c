/**
 One update of a whole list of variables, some new, some growing, some shrinking and some in order: which
 of them it reaches. The first shrinking variable has the peers that go deleted from all variables at once,
 and so brings the loop to its end at the next one that shrinks.
 */
module PeerVariables {
  import opened Text
  import opened MonitoringConsole
  import opened PeerLists
  import opened PeerUpdates

  /**
   A variable's list, empty for a variable that is not there; all peers the resource ever has in it; and
   how many it has before and after.
   */
  datatype Variable = Variable(name: string, list: seq<string>, peers: seq<string>, before: nat, after: nat)
  {
    predicate Grows() { before < after }
    predicate Shrinks() { before > after }

    ghost predicate Fits(crName: string) {
      && Scene(if list == [] then peers else list, peers, crName) && before <= |peers| && 0 < after <= |peers|
      && Own(list, crName) == peers[..before]
    }

    function Url(): EnvVar
      requires after <= |peers|
    {
      EnvVar(name, Join(peers[..after], ','))
    }

    /** The list, once updated or as it was. */
    ghost function Now(done: bool): seq<string>
      requires before <= |peers| && after <= |peers|
    {
      if done then Updated(list, peers, before, after) else list
    }

    function Size(done: bool): nat {
      if done then after else before
    }
  }

  ghost predicate AllFit(vars: seq<Variable>, crName: string) {
    && (forall k :: 0 <= k < |vars| ==> vars[k].Fits(crName))
    && (forall i, j :: 0 <= i < j < |vars| ==> vars[i].name != vars[j].name)
  }

  function Urls(vars: seq<Variable>): (urls: seq<EnvVar>)
    requires forall k :: 0 <= k < |vars| ==> vars[k].after <= |vars[k].peers|
    ensures |urls| == |vars| && forall k :: 0 <= k < |vars| ==> urls[k] == vars[k].Url()
  {
    seq(|vars|, k requires 0 <= k < |vars| => vars[k].Url())
  }

  ghost predicate HoldsAt(data: map<string, string>, v: Variable, done: bool)
    requires v.before <= |v.peers| && v.after <= |v.peers|
  {
    if v.Now(done) == [] then v.name !in data else v.name in data && data[v.name] == Join(v.Now(done), ',')
  }

  /** The variables hold their lists, those marked having been updated. */
  ghost predicate Holds(data: map<string, string>, vars: seq<Variable>, done: seq<bool>)
    requires forall k :: 0 <= k < |vars| ==> vars[k].before <= |vars[k].peers| && vars[k].after <= |vars[k].peers|
  {
    |done| == |vars| && forall k :: 0 <= k < |vars| ==> HoldsAt(data, vars[k], done[k])
  }

  lemma FirstPeers(peers: seq<string>, b: nat, crName: string)
    requires Scene(peers, peers, crName) && 0 < b <= |peers|
    ensures Scene(peers[..b], peers, crName) && Own(peers[..b], crName) == peers[..b]
  {
    assert forall e <- peers[..b] :: e in peers;
    ApartPart(peers + peers, peers[..b] + peers);
    OwnOfOwn(peers[..b], crName);
  }

  lemma NewVariable(v: Variable, crName: string)
    requires v.Fits(crName) && v.list == []
    ensures v.before == 0 && v.Now(true) == v.peers[..v.after]
    ensures Scene(v.peers[..v.after], v.peers, crName) && Own(v.peers[..v.after], crName) == v.peers[..v.after]
  {
    assert v.peers[..v.before] == [];
    FirstPeers(v.peers, v.after, crName);
  }

  lemma NowFits(v: Variable, done: bool, crName: string)
    requires v.Fits(crName)
    ensures v.Now(done) == [] <==> v.list == [] && !done
    ensures v.Now(done) != [] ==> Scene(v.Now(done), v.peers, crName)
    ensures Own(v.Now(done), crName) == v.peers[..v.Size(done)]
  {
    if done && v.list == [] {
      NewVariable(v, crName);
    } else if done {
      SceneIsKept(v.list, v.peers, v.before, v.after, crName);
      UpdateIsRight(v.list, v.peers, v.before, v.after, crName);
    }
  }

  /** Nothing is deleted from a variable that does not shrink. */
  lemma NothingGoes(list: seq<string>, peers: seq<string>, a: nat, b: nat, crName: string)
    requires Scene(list, peers, crName) && a <= b <= |peers| && Own(list, crName) == peers[..a]
    ensures DeleteVar(Join(list, ','), crName, Join(peers[..b], ',')) == Join(list, ',')
  {
    var value := Join(peers[..b], ',');
    ApartPart(list + peers, list);
    DeleteVarRefines(list, crName, value);
    forall e | e in list ensures e !in DoomedIn(crName, value, list) {
      if Contains(e, crName) {
        assert e in peers[..a];
        var k :| 0 <= k < a && peers[k] == e;
        ValueHolds(list, peers, b, crName, k);
      }
    }
    WithoutNone(list, DoomedIn(crName, value, list));
  }

  /** What deleting leaves in one variable. */
  lemma DeletedFrom(v: Variable, done: bool, crName: string)
    requires v.Fits(crName)
    ensures DeleteVar(Join(v.Now(done), ','), crName, v.Url().value) == Join(v.Now(done || v.Shrinks()), ',')
  {
    NowFits(v, done, crName);
    if v.Now(done) == [] {
      assert v.peers[..v.before] == [] && Split("", ',') == [""] && SortStrings([""]) == [""];
    } else if !done && v.Shrinks() {
      ScaleDownRefines(v.list, v.peers, v.before, v.after, crName);
    } else {
      NothingGoes(v.Now(done), v.peers, v.Size(done), v.after, crName);
    }
  }

  /** Deletion treats each variable by itself. */
  lemma {:induction false} DeleteAt(data: map<string, string>, crName: string, urls: seq<EnvVar>, j: nat)
    requires crName != "" && DistinctNames(urls) && j < |urls|
    ensures Read(Delete(data, crName, urls), urls[j].name) == DeleteVar(Read(data, urls[j].name), crName, urls[j].value)
    ensures urls[j].name in Delete(data, crName, urls) <==> Read(Delete(data, crName, urls), urls[j].name) != ""
    decreases |urls|
  {
    var head := Stored(data, urls[0].name, DeleteVar(Read(data, urls[0].name), crName, urls[0].value));
    if j == 0 {
      DeleteElsewhere(head, crName, urls[1..], urls[0].name);
    } else {
      assert urls[0].name != urls[j].name && urls[1..][j - 1] == urls[j];
      DeleteAt(head, crName, urls[1..], j - 1);
    }
  }

  lemma {:induction false} DeleteElsewhere(data: map<string, string>, crName: string, urls: seq<EnvVar>, name: string)
    requires crName != "" && forall i :: 0 <= i < |urls| ==> urls[i].name != name
    ensures Read(Delete(data, crName, urls), name) == Read(data, name)
    ensures name in Delete(data, crName, urls) <==> name in data
    decreases |urls|
  {
    if urls != [] {
      var head := Stored(data, urls[0].name, DeleteVar(Read(data, urls[0].name), crName, urls[0].value));
      DeleteElsewhere(head, crName, urls[1..], name);
    }
  }

  function Shrunk(vars: seq<Variable>, done: seq<bool>): (r: seq<bool>)
    requires |done| == |vars|
    ensures |r| == |vars| && forall k :: 0 <= k < |vars| ==> r[k] == (done[k] || vars[k].Shrinks())
  {
    seq(|vars|, k requires 0 <= k < |vars| => done[k] || vars[k].Shrinks())
  }

  lemma DeleteHolds(data: map<string, string>, vars: seq<Variable>, done: seq<bool>, crName: string)
    requires crName != "" && AllFit(vars, crName) && Holds(data, vars, done)
    ensures Holds(Delete(data, crName, Urls(vars)), vars, Shrunk(vars, done))
  {
    var after := Delete(data, crName, Urls(vars));
    forall k: nat | k < |vars| ensures HoldsAt(after, vars[k], Shrunk(vars, done)[k]) {
      assert HoldsAt(data, vars[k], done[k]);
      DeleteAt(data, crName, Urls(vars), k);
      DeletedFrom(vars[k], done[k], crName);
      NowFits(vars[k], Shrunk(vars, done)[k], crName);
      NowFits(vars[k], done[k], crName);
      JoinIsClean(vars[k].Now(Shrunk(vars, done)[k]));
    }
  }

  /** Which variables have been updated in the end, from variable `k` on. */
  function Final(vars: seq<Variable>, done: seq<bool>, k: nat): (r: seq<bool>)
    requires |done| == |vars| && k <= |vars|
    ensures |r| == |vars|
    decreases |vars| - k
  {
    if k == |vars| || done[k] || vars[k].before == vars[k].after then done
    else if vars[k].Grows() then Final(vars, done[k := true], k + 1)
    else Final(vars, Shrunk(vars, done), k + 1)
  }

  lemma Compared(data: map<string, string>, v: Variable, done: bool, crName: string)
    requires v.Fits(crName) && HoldsAt(data, v, done) && v.Now(done) != []
    ensures var own := |OwnText(Split(data[v.name], ','), crName)|;
      && (own == |v.Url().value| <==> v.Size(done) == v.after)
      && (own < |v.Url().value| <==> v.Size(done) < v.after)
  {
    NowFits(v, done, crName);
    LengthsDecide(v.Now(done), v.peers, v.Size(done), v.after, crName);
  }

  /** The variable with the peers it does not have yet, or with all of them if it was not there. */
  function Grown(data: map<string, string>, v: Variable): map<string, string>
    requires v.after <= |v.peers|
  {
    data[v.name := if v.name in data then AddEntries(data[v.name], Split(v.Url().value, ',')) else v.Url().value]
  }

  lemma GrowHolds(data: map<string, string>, vars: seq<Variable>, done: seq<bool>, k: nat, crName: string)
    requires AllFit(vars, crName) && Holds(data, vars, done) && k < |vars| && !done[k] && vars[k].Grows()
    ensures Holds(Grown(data, vars[k]), vars, done[k := true])
  {
    var v := vars[k];
    assert HoldsAt(data, v, false);
    NowFits(v, true, crName);
    if v.list == [] {
      NewVariable(v, crName);
    } else {
      ScaleUpRefines(v.list, v.peers, v.before, v.after, crName);
    }
    forall j: nat | j < |vars| ensures HoldsAt(Grown(data, v), vars[j], done[k := true][j]) {
      assert HoldsAt(data, vars[j], done[j]);
      assert j != k ==> vars[j].name != v.name;
    }
  }

  lemma EndsHere(data: map<string, string>, vars: seq<Variable>, done: seq<bool>, k: nat, crName: string)
    requires crName != "" && AllFit(vars, crName) && Holds(data, vars, done) && k < |vars|
    requires vars[k].Size(done[k]) == vars[k].after
    ensures Add(data, crName, Urls(vars), k) == data && Final(vars, done, k) == done
  {
    assert HoldsAt(data, vars[k], done[k]) && Urls(vars)[k] == vars[k].Url();
    NowFits(vars[k], done[k], crName);
    Compared(data, vars[k], done[k], crName);
  }

  lemma GrowStep(data: map<string, string>, vars: seq<Variable>, done: seq<bool>, k: nat, crName: string)
    requires crName != "" && AllFit(vars, crName) && Holds(data, vars, done)
    requires k < |vars| && !done[k] && vars[k].Grows()
    ensures Add(data, crName, Urls(vars), k) == Add(Grown(data, vars[k]), crName, Urls(vars), k + 1)
  {
    assert HoldsAt(data, vars[k], done[k]) && Urls(vars)[k] == vars[k].Url();
    NowFits(vars[k], done[k], crName);
    if vars[k].Now(done[k]) != [] {
      Compared(data, vars[k], done[k], crName);
    }
  }

  lemma ShrinkStep(data: map<string, string>, vars: seq<Variable>, done: seq<bool>, k: nat, crName: string)
    requires crName != "" && AllFit(vars, crName) && Holds(data, vars, done)
    requires k < |vars| && !done[k] && vars[k].Shrinks()
    ensures Add(data, crName, Urls(vars), k) == Add(Delete(data, crName, Urls(vars)), crName, Urls(vars), k + 1)
  {
    assert HoldsAt(data, vars[k], done[k]) && Urls(vars)[k] == vars[k].Url();
    NowFits(vars[k], done[k], crName);
    Compared(data, vars[k], done[k], crName);
  }

  /** A variable not in order is updated, and the loop goes on with the lists still held. */
  lemma StepHolds(data: map<string, string>, vars: seq<Variable>, done: seq<bool>, k: nat, crName: string)
    returns (next: map<string, string>, marks: seq<bool>)
    requires crName != "" && AllFit(vars, crName) && Holds(data, vars, done) && k < |vars|
    requires vars[k].Size(done[k]) != vars[k].after
    ensures marks == if vars[k].Grows() then done[k := true] else Shrunk(vars, done)
    ensures Holds(next, vars, marks)
    ensures Add(data, crName, Urls(vars), k) == Add(next, crName, Urls(vars), k + 1)
  {
    if vars[k].Grows() {
      GrowHolds(data, vars, done, k, crName);
      GrowStep(data, vars, done, k, crName);
      next, marks := Grown(data, vars[k]), done[k := true];
    } else {
      DeleteHolds(data, vars, done, crName);
      ShrinkStep(data, vars, done, k, crName);
      next, marks := Delete(data, crName, Urls(vars)), Shrunk(vars, done);
    }
  }

  lemma FinalStep(vars: seq<Variable>, done: seq<bool>, marks: seq<bool>, k: nat)
    requires |done| == |vars| && k < |vars|
    requires vars[k].Size(done[k]) != vars[k].after
    requires marks == if vars[k].Grows() then done[k := true] else Shrunk(vars, done)
    ensures Final(vars, done, k) == Final(vars, marks, k + 1)
  {
  }

  /** One call leaves every variable updated or as it was, as Final says. */
  lemma {:induction false} AddHolds(data: map<string, string>, vars: seq<Variable>, done: seq<bool>, k: nat,
                                    crName: string)
    returns (after: map<string, string>, marks: seq<bool>)
    requires crName != "" && AllFit(vars, crName) && Holds(data, vars, done) && k <= |vars|
    ensures after == Add(data, crName, Urls(vars), k) && marks == Final(vars, done, k)
    ensures Holds(after, vars, marks)
    decreases |vars| - k
  {
    if k == |vars| || vars[k].Size(done[k]) == vars[k].after {
      after, marks := data, done;
      if k < |vars| {
        EndsHere(data, vars, done, k, crName);
      }
    } else {
      var next, moved := StepHolds(data, vars, done, k, crName);
      FinalStep(vars, done, moved, k);
      after, marks := AddHolds(next, vars, moved, k + 1, crName);
    }
  }

  predicate Settled(v: Variable, done: bool) {
    v.Size(done) == v.after
  }

  predicate AllSettled(vars: seq<Variable>, done: seq<bool>) {
    |done| == |vars| && forall k :: 0 <= k < |vars| ==> Settled(vars[k], done[k])
  }

  /** How many of the variables grow, from variable `k` on, before one that does not. */
  function FirstOther(vars: seq<Variable>, k: nat): (f: nat)
    requires k <= |vars|
    ensures k <= f <= |vars| && (forall j :: k <= j < f ==> vars[j].Grows()) && (f < |vars| ==> !vars[f].Grows())
    decreases |vars| - k
  {
    if k == |vars| || !vars[k].Grows() then k else FirstOther(vars, k + 1)
  }

  /** From variable `k` on, the growing variables come before all others. */
  predicate GrowingFirst(vars: seq<Variable>, k: nat) {
    forall i, j :: k <= i < j < |vars| && vars[j].Grows() ==> vars[i].Grows()
  }

  /**
   The order of the variables in which one call can update them all: if the first that does not grow is
   in order, so are all after it; and if it shrinks, those that grow come first among the ones after it.
   */
  predicate Orderly(vars: seq<Variable>, f: nat) {
    f < |vars| ==>
      if vars[f].Shrinks() then GrowingFirst(vars, f + 1)
      else forall j :: f < j < |vars| ==> vars[j].before == vars[j].after
  }

  /** After a deletion, the loop goes on through growing variables only. */
  lemma {:induction false} AfterDeletion(vars: seq<Variable>, done: seq<bool>, k: nat)
    requires |done| == |vars| && k <= |vars|
    requires forall j :: 0 <= j < k ==> Settled(vars[j], done[j])
    requires forall j :: k <= j < |vars| ==> done[j] == vars[j].Shrinks()
    ensures AllSettled(vars, Final(vars, done, k)) <==> GrowingFirst(vars, k)
    decreases |vars| - k
  {
    if k < |vars| {
      if vars[k].Grows() {
        AfterDeletion(vars, done[k := true], k + 1);
      } else {
        assert Final(vars, done, k) == done;
        forall j | k < j < |vars| ensures Settled(vars[j], done[j]) <==> !vars[j].Grows() {
        }
      }
    }
  }

  /** Before any deletion, the loop goes through growing variables up to the first other one. */
  lemma {:induction false} SettledIff(vars: seq<Variable>, done: seq<bool>, k: nat)
    requires |done| == |vars| && k <= |vars|
    requires forall j :: 0 <= j < |vars| ==> done[j] == (j < k)
    requires forall j :: 0 <= j < k ==> vars[j].Grows()
    ensures AllSettled(vars, Final(vars, done, k)) <==> Orderly(vars, FirstOther(vars, k))
    decreases |vars| - k
  {
    if k < |vars| {
      if vars[k].Grows() {
        SettledIff(vars, done[k := true], k + 1);
      } else if vars[k].Shrinks() {
        AfterDeletion(vars, Shrunk(vars, done), k + 1);
      } else {
        assert Final(vars, done, k) == done;
      }
    }
  }

  /** A variable holds its new list exactly when it has been updated or did not have to be. */
  lemma NewIffSettled(data: map<string, string>, v: Variable, done: bool, crName: string)
    requires v.Fits(crName) && HoldsAt(data, v, done)
    ensures HoldsAt(data, v, true) <==> Settled(v, done)
  {
    if !done {
      if v.before == v.after {
        assert Updated(v.list, v.peers, v.before, v.after) == v.list;
      } else {
        NowFits(v, true, crName);
        NowFits(v, false, crName);
        if v.list != [] {
          SplitJoin(v.list, ',');
        }
        SplitJoin(v.Now(true), ',');
        assert |v.peers[..v.before]| != |v.peers[..v.after]|;
      }
    }
  }

  function NoneDone(vars: seq<Variable>): (r: seq<bool>)
    ensures |r| == |vars| && forall k :: 0 <= k < |vars| ==> !r[k]
  {
    seq(|vars|, k => false)
  }

  /** One call leaves every variable with its new list exactly when the variables are in such an order. */
  lemma AllUpdatedIff(data: map<string, string>, vars: seq<Variable>, crName: string)
    requires crName != "" && AllFit(vars, crName) && Holds(data, vars, NoneDone(vars))
    ensures (forall k :: 0 <= k < |vars| ==> HoldsAt(Add(data, crName, Urls(vars), 0), vars[k], true))
      <==> Orderly(vars, FirstOther(vars, 0))
  {
    var after, marks := AddHolds(data, vars, NoneDone(vars), 0, crName);
    SettledIff(vars, NoneDone(vars), 0);
    forall k: nat | k < |vars| ensures HoldsAt(after, vars[k], true) <==> Settled(vars[k], marks[k]) {
      assert HoldsAt(after, vars[k], marks[k]);
      NewIffSettled(after, vars[k], marks[k], crName);
    }
  }

  lemma {:induction false} DoneStays(vars: seq<Variable>, done: seq<bool>, k: nat, j: nat)
    requires |done| == |vars| && k <= |vars| && j < |vars| && done[j]
    ensures Final(vars, done, k)[j]
    decreases |vars| - k
  {
    if k < |vars| && !Settled(vars[k], done[k]) {
      DoneStays(vars, if vars[k].Grows() then done[k := true] else Shrunk(vars, done), k + 1, j);
    }
  }

  /** What the first call leaves as it was, no later call with the same peers changes. */
  lemma NeverReached(data: map<string, string>, vars: seq<Variable>, crName: string)
    requires crName != "" && AllFit(vars, crName) && Holds(data, vars, NoneDone(vars))
    ensures Add(Add(data, crName, Urls(vars), 0), crName, Urls(vars), 0) == Add(data, crName, Urls(vars), 0)
  {
    var none := NoneDone(vars);
    var after, marks := AddHolds(data, vars, none, 0, crName);
    if vars != [] {
      if !Settled(vars[0], none[0]) {
        DoneStays(vars, if vars[0].Grows() then none[0 := true] else Shrunk(vars, none), 1, 0);
      }
      EndsHere(after, vars, marks, 0, crName);
    }
  }
}
