/**
 What an update of one variable does to its list of peers, when a resource scales up or down; and which
 variables an update reaches.
 */
module PeerUpdates {
  import opened Text
  import opened MonitoringConsole
  import opened PeerLists

  /**
   The list a variable holds, and all the peers a resource ever has there, in order. The resource's
   name must be part of its own peers; that it is part of no other is for Own to say.
   */
  ghost predicate Scene(list: seq<string>, peers: seq<string>, crName: string) {
    && crName != "" && list != []
    && Entries(list) && Entries(peers) && Apart(list + peers)
    && Distinct(list) && Distinct(peers)
    && forall p <- peers :: Contains(p, crName)
  }

  ghost function Elements(list: seq<string>): set<string> {
    set e | e in list
  }

  /** The list after an update from the first `a` peers to the first `b`. */
  ghost function Updated(list: seq<string>, peers: seq<string>, a: nat, b: nat): seq<string>
    requires a <= |peers| && b <= |peers|
  {
    if a <= b then list + peers[a..b] else Without(list, Elements(peers[b..a]))
  }

  lemma {:induction false} OwnOfOwn(more: seq<string>, crName: string)
    requires forall e <- more :: Contains(e, crName)
    ensures Own(more, crName) == more && Others(more, crName) == []
  {
    if more != [] {
      assert more == [more[0]] + more[1..];
      OwnOfOwn(more[1..], crName);
    }
  }

  lemma {:induction false} OwnWithout(list: seq<string>, gone: set<string>, crName: string)
    requires forall e <- gone :: Contains(e, crName)
    ensures Own(Without(list, gone), crName) == Without(Own(list, crName), gone)
    ensures Others(Without(list, gone), crName) == Others(list, crName)
  {
    if list != [] {
      OwnWithout(list[1..], gone, crName);
      var rest := Without(list[1..], gone);
      assert ([list[0]] + rest)[1..] == rest;
      assert ([list[0]] + Own(list[1..], crName))[1..] == Own(list[1..], crName);
    }
  }

  lemma {:induction false} WithoutAppend(a: seq<string>, b: seq<string>, gone: set<string>)
    ensures Without(a + b, gone) == Without(a, gone) + Without(b, gone)
  {
    if a == [] {
      assert a + b == b;
    } else {
      assert (a + b)[1..] == a[1..] + b;
      WithoutAppend(a[1..], b, gone);
    }
  }

  lemma {:induction false} WithoutAll(list: seq<string>, gone: set<string>)
    requires forall e <- list :: e in gone
    ensures Without(list, gone) == []
  {
    if list != [] {
      assert list == [list[0]] + list[1..];
      WithoutAll(list[1..], gone);
    }
  }

  lemma WithoutTail(peers: seq<string>, b: nat, a: nat)
    requires Distinct(peers) && b <= a <= |peers|
    ensures Without(peers[..a], Elements(peers[b..a])) == peers[..b]
  {
    var gone := Elements(peers[b..a]);
    assert peers[..a] == peers[..b] + peers[b..a];
    WithoutAppend(peers[..b], peers[b..a], gone);
    forall e | e in peers[..b] ensures e !in gone {
      var i :| 0 <= i < b && peers[i] == e;
      assert forall j :: b <= j < a ==> peers[j] != peers[i];
    }
    WithoutNone(peers[..b], gone);
    WithoutAll(peers[b..a], gone);
  }

  /** An update leaves exactly the new peers as the resource's own, and everyone else's as they were. */
  lemma UpdateIsRight(list: seq<string>, peers: seq<string>, a: nat, b: nat, crName: string)
    requires Scene(list, peers, crName) && a <= |peers| && b <= |peers| && Own(list, crName) == peers[..a]
    ensures Own(Updated(list, peers, a, b), crName) == peers[..b]
    ensures Others(Updated(list, peers, a, b), crName) == Others(list, crName)
  {
    if a <= b {
      OwnAppend(list, peers[a..b], crName);
      OthersAppend(list, peers[a..b], crName);
      OwnOfOwn(peers[a..b], crName);
      assert peers[..b] == peers[..a] + peers[a..b];
      assert Others(list, crName) + [] == Others(list, crName);
    } else {
      OwnWithout(list, Elements(peers[b..a]), crName);
      WithoutTail(peers, b, a);
    }
  }

  lemma ApartPart(all: seq<string>, part: seq<string>)
    requires Apart(all) && forall e <- part :: e in all
    ensures Apart(part)
  {
  }

  /** A peer's text is in the joined new value exactly when it is one of the new peers. */
  lemma ValueHolds(list: seq<string>, peers: seq<string>, b: nat, crName: string, k: nat)
    requires Scene(list, peers, crName) && b <= |peers| && k < |peers|
    ensures Contains(Join(peers[..b], ','), peers[k]) <==> k < b
  {
    ApartPart(list + peers, peers[..b] + [peers[k]]);
    FoundIffHeld(peers[..b], peers[k]);
    if k < b {
      assert peers[..b][k] == peers[k];
    }
  }

  /** Scaling down dooms exactly the peers that go. */
  lemma DoomedAreGone(list: seq<string>, peers: seq<string>, a: nat, b: nat, crName: string)
    requires Scene(list, peers, crName) && b <= a <= |peers| && Own(list, crName) == peers[..a]
    ensures DoomedIn(crName, Join(peers[..b], ','), list) == Elements(peers[b..a])
  {
    var value := Join(peers[..b], ',');
    forall e | e in DoomedIn(crName, value, list) ensures e in Elements(peers[b..a]) {
      assert e in peers[..a];
      var k :| 0 <= k < a && peers[k] == e;
      ValueHolds(list, peers, b, crName, k);
      assert peers[b..a][k - b] == e;
    }
    forall e | e in Elements(peers[b..a]) ensures e in DoomedIn(crName, value, list) {
      var k :| b <= k < a && peers[k] == e;
      ValueHolds(list, peers, b, crName, k);
      assert peers[..a][k] == e && e in Own(list, crName);
    }
  }

  /** The length comparison tells whether the resource keeps its size, grows or shrinks. */
  lemma LengthsDecide(list: seq<string>, peers: seq<string>, a: nat, b: nat, crName: string)
    requires Scene(list, peers, crName) && a <= |peers| && b <= |peers| && Own(list, crName) == peers[..a]
    ensures var own := |OwnText(Split(Join(list, ','), ','), crName)|;
      var value := |Join(peers[..b], ',')|;
      && (own == value <==> a == b)
      && (own < value <==> a < b)
  {
    SplitJoin(list, ',');
    OwnTextLength(list, crName);
    if a < b {
      LongerJoin(peers, a, b);
    } else if b < a {
      LongerJoin(peers, b, a);
    }
  }

  lemma NewPeersAreNew(list: seq<string>, peers: seq<string>, a: nat, b: nat, crName: string)
    requires Scene(list, peers, crName) && a <= b <= |peers| && Own(list, crName) == peers[..a]
    ensures forall e <- peers[a..b] :: e !in list
  {
    forall e | e in peers[a..b] ensures e !in list {
      var k :| a <= k < b && peers[k] == e;
      assert forall j :: 0 <= j < a ==> peers[j] != peers[k];
      assert e !in peers[..a] && e in peers;
    }
  }

  lemma ExtendByPeers(list: seq<string>, peers: seq<string>, a: nat, b: nat, crName: string)
    requires Scene(list, peers, crName) && a < b <= |peers| && Own(list, crName) == peers[..a]
    ensures Extend(list, peers[..b]) == list + peers[a..b]
  {
    NewPeersAreNew(list, peers, a, b, crName);
    assert forall e <- peers[..a] :: e in Own(list, crName);
    assert peers[..b] == peers[..a] + peers[a..b];
    ExtendHeld(list, peers[..a], peers[a..b]);
  }

  lemma ScaleUpRefines(list: seq<string>, peers: seq<string>, a: nat, b: nat, crName: string)
    requires Scene(list, peers, crName) && a < b <= |peers| && Own(list, crName) == peers[..a]
    ensures AddEntries(Join(list, ','), Split(Join(peers[..b], ','), ',')) == Join(Updated(list, peers, a, b), ',')
  {
    SplitJoin(peers[..b], ',');
    AddEntriesRefines(list, list + peers, peers[..b]);
    ExtendByPeers(list, peers, a, b, crName);
  }

  lemma ScaleDownRefines(list: seq<string>, peers: seq<string>, a: nat, b: nat, crName: string)
    requires Scene(list, peers, crName) && b < a <= |peers| && Own(list, crName) == peers[..a]
    ensures DeleteVar(Join(list, ','), crName, Join(peers[..b], ',')) == Join(Updated(list, peers, a, b), ',')
  {
    ApartPart(list + peers, list);
    DeleteVarRefines(list, crName, Join(peers[..b], ','));
    DoomedAreGone(list, peers, a, b, crName);
  }

  /** The updated list is again one to update, unless nothing is left. */
  lemma SceneIsKept(list: seq<string>, peers: seq<string>, a: nat, b: nat, crName: string)
    requires Scene(list, peers, crName) && a <= |peers| && b <= |peers| && Own(list, crName) == peers[..a]
    ensures b > 0 ==> Updated(list, peers, a, b) != []
    ensures Updated(list, peers, a, b) != [] ==> Scene(Updated(list, peers, a, b), peers, crName)
  {
    var updated := Updated(list, peers, a, b);
    UpdateIsRight(list, peers, a, b, crName);
    assert b > 0 ==> peers[0] in Own(updated, crName);
    forall e | e in updated + peers ensures e in list + peers {
    }
    if a <= b {
      NewPeersAreNew(list, peers, a, b, crName);
      assert forall i :: 0 <= i < |list| ==> list[i] in list;
    } else {
      WithoutKeepsDistinct(list, Elements(peers[b..a]));
    }
  }

  lemma UpdatedEntries(list: seq<string>, peers: seq<string>, a: nat, b: nat, crName: string)
    requires Scene(list, peers, crName) && a <= |peers| && b <= |peers|
    ensures Entries(Updated(list, peers, a, b))
  {
    if a > b {
      WithoutKeepsDistinct(list, Elements(peers[b..a]));
    }
  }

  /**
   Updating one variable refines the update of its list, whichever way the resource scales. A variable
   with nothing left is dropped.
   */
  lemma {:induction false} UpdateRefines(data: map<string, string>, name: string, list: seq<string>,
                                         peers: seq<string>, a: nat, b: nat, crName: string)
    requires Scene(list, peers, crName) && a <= |peers| && b <= |peers| && Own(list, crName) == peers[..a]
    requires name in data && data[name] == Join(list, ',')
    ensures Add(data, crName, [EnvVar(name, Join(peers[..b], ','))], 0)
      == Stored(data, name, Join(Updated(list, peers, a, b), ','))
  {
    var url := EnvVar(name, Join(peers[..b], ','));
    LengthsDecide(list, peers, a, b, crName);
    UpdatedEntries(list, peers, a, b, crName);
    JoinIsClean(Updated(list, peers, a, b));
    if a < b {
      ScaleUpRefines(list, peers, a, b, crName);
      AddLast(data[name := AddEntries(data[name], Split(url.value, ','))], crName, [url]);
    } else if b < a {
      ScaleDownRefines(list, peers, a, b, crName);
      DeleteSingle(data, crName, url);
      AddLast(Delete(data, crName, [url]), crName, [url]);
    } else {
      assert Updated(list, peers, a, b) == list;
    }
  }

  lemma {:induction false} AddToBlank(done: seq<string>, more: seq<string>)
    requires Entries(done + more) && Apart(done + more) && Distinct(done + more)
    ensures AddEntries(Join([""] + done, ','), more) == Join([""] + done + more, ',')
    decreases |more|
  {
    if more == [] {
      assert [""] + done + more == [""] + done;
    } else {
      var e, held := more[0], [""] + done;
      assert (done + more)[|done|] == e;
      forall x | x in held ensures !Contains(x, e) {
        if x in done {
          var i :| 0 <= i < |done| && done[i] == x;
          assert (done + more)[i] != (done + more)[|done|];
          assert x in done + more;
        }
      }
      ContainsJoin(held, e, ',');
      JoinAppend(held, [e], ',');
      assert done + [e] + more[1..] == done + more;
      assert held + [e] == [""] + (done + [e]);
      AddToBlank(done + [e], more[1..]);
      assert [""] + (done + [e]) + more[1..] == [""] + done + more;
    }
  }

  /** A variable stored with an empty value gets its peers behind a comma. */
  lemma EmptyValueGrows(data: map<string, string>, name: string, peers: seq<string>, crName: string)
    requires crName != "" && Entries(peers) && Apart(peers) && Distinct(peers) && peers != []
    requires name in data && data[name] == ""
    ensures Add(data, crName, [EnvVar(name, Join(peers, ','))], 0) == data[name := "," + Join(peers, ',')]
  {
    var url := EnvVar(name, Join(peers, ','));
    assert [] + peers == peers;
    SplitJoin(peers, ',');
    JoinIsClean(peers);
    assert Split("", ',') == [""] && OwnText([""], crName) == "";
    AddToBlank([], peers);
    assert [""] + [] == [""] && Join([""], ',') == "";
    JoinBlankFirst(peers);
    AddLast(data[name := AddEntries("", peers)], crName, [url]);
  }

  lemma AddLast(data: map<string, string>, crName: string, urls: seq<EnvVar>)
    requires crName != ""
    ensures Add(data, crName, urls, |urls|) == data
  {
  }

  lemma DeleteSingle(data: map<string, string>, crName: string, url: EnvVar)
    requires crName != ""
    ensures Delete(data, crName, [url]) == Stored(data, url.name, DeleteVar(Read(data, url.name), crName, url.value))
  {
    assert [url][1..] == [];
  }

  /** Doing it again changes nothing, unless the variable was dropped: then it is stored with an empty value. */
  lemma {:induction false} RepeatChangesNothingIff(data: map<string, string>, name: string, list: seq<string>,
                                                   peers: seq<string>, a: nat, b: nat, crName: string)
    requires Scene(list, peers, crName) && a <= |peers| && b <= |peers| && Own(list, crName) == peers[..a]
    requires name in data && data[name] == Join(list, ',')
    ensures var urls := [EnvVar(name, Join(peers[..b], ','))];
      Add(Add(data, crName, urls, 0), crName, urls, 0) == Add(data, crName, urls, 0) <==>
        Updated(list, peers, a, b) != []
  {
    var updated, url := Updated(list, peers, a, b), EnvVar(name, Join(peers[..b], ','));
    UpdateRefines(data, name, list, peers, a, b, crName);
    SceneIsKept(list, peers, a, b, crName);
    if updated == [] {
      AddLast((data - {name})[name := url.value], crName, [url]);
    } else {
      JoinIsClean(updated);
      UpdateIsRight(list, peers, a, b, crName);
      UpdateRefines(data[name := Join(updated, ',')], name, updated, peers, b, b, crName);
      assert Updated(updated, peers, b, b) == updated;
    }
  }

  /** When a resource shrinks, another resource's peer survives exactly when it does not contain its name. */
  lemma {:induction false} ForeignPeerSurvivesIff(list: seq<string>, crName: string, value: seq<string>, peer: string)
    requires crName != "" && Entries(list) && Distinct(list) && Apart(list + value) && Entries(value)
    requires peer in list && peer !in value
    ensures peer in Split(DeleteVar(Join(list, ','), crName, Join(value, ',')), ',') <==> !Contains(peer, crName)
  {
    var gone := DoomedIn(crName, Join(value, ','), list);
    ApartPart(list + value, list);
    ApartPart(list + value, value + [peer]);
    DeleteVarRefines(list, crName, Join(value, ','));
    FoundIffHeld(value, peer);
    WithoutKeepsDistinct(list, gone);
    if Without(list, gone) != [] {
      SplitJoin(Without(list, gone), ',');
    }
  }

  /** What an update that is not a scale-down makes of one variable. */
  function Wanted(data: map<string, string>, crName: string, url: EnvVar): string {
    if url.name !in data then url.value
    else if |OwnText(Split(data[url.name], ','), crName)| < |url.value| then
      AddEntries(data[url.name], Split(url.value, ','))
    else data[url.name]
  }

  /** The resource's own text already has the length of the new value: the loop over variables ends here. */
  predicate Stops(data: map<string, string>, crName: string, url: EnvVar) {
    url.name in data && |OwnText(Split(data[url.name], ','), crName)| == |url.value|
  }

  predicate Shrinks(data: map<string, string>, crName: string, url: EnvVar) {
    url.name in data && |OwnText(Split(data[url.name], ','), crName)| > |url.value|
  }

  predicate IsWanted(after: map<string, string>, data: map<string, string>, crName: string, url: EnvVar) {
    url.name in after && after[url.name] == Wanted(data, crName, url)
  }

  function FirstStop(data: map<string, string>, crName: string, urls: seq<EnvVar>, k: nat): (f: nat)
    requires k <= |urls|
    ensures k <= f <= |urls|
    ensures forall j :: k <= j < f ==> !Stops(data, crName, urls[j])
    ensures f < |urls| ==> Stops(data, crName, urls[f])
    decreases |urls| - k
  {
    if k == |urls| || Stops(data, crName, urls[k]) then k else FirstStop(data, crName, urls, k + 1)
  }

  ghost predicate DistinctNames(urls: seq<EnvVar>) {
    forall i, j :: 0 <= i < j < |urls| ==> urls[i].name != urls[j].name
  }

  predicate SameAt(a: map<string, string>, b: map<string, string>, name: string) {
    (name in a <==> name in b) && (name in a ==> a[name] == b[name])
  }

  ghost predicate Unnamed(urls: seq<EnvVar>, k: nat, f: nat, name: string) {
    forall j :: k <= j < f && j < |urls| ==> urls[j].name != name
  }

  /** An addition updates variable `k` and goes on, unless it stops there. */
  lemma AddStep(before: map<string, string>, data: map<string, string>, crName: string, urls: seq<EnvVar>, k: nat)
    requires crName != "" && k < |urls| && SameAt(data, before, urls[k].name)
    requires !Shrinks(before, crName, urls[k]) && !Stops(before, crName, urls[k])
    ensures Add(data, crName, urls, k)
      == Add(data[urls[k].name := Wanted(before, crName, urls[k])], crName, urls, k + 1)
  {
  }

  /** Variables before the first stop are updated, and all the others left alone. */
  lemma {:induction false} AddReaches(before: map<string, string>, data: map<string, string>, crName: string,
                                      urls: seq<EnvVar>, k: nat)
    requires crName != "" && k <= |urls| && DistinctNames(urls)
    requires forall j :: k <= j < |urls| ==> !Shrinks(before, crName, urls[j]) && SameAt(data, before, urls[j].name)
    ensures forall j :: k <= j < FirstStop(before, crName, urls, k) ==>
      IsWanted(Add(data, crName, urls, k), before, crName, urls[j])
    ensures forall name :: Unnamed(urls, k, FirstStop(before, crName, urls, k), name) ==>
      SameAt(Add(data, crName, urls, k), data, name)
    decreases |urls| - k
  {
    if k < |urls| && !Stops(before, crName, urls[k]) {
      var next := data[urls[k].name := Wanted(before, crName, urls[k])];
      var f := FirstStop(before, crName, urls, k + 1);
      AddStep(before, data, crName, urls, k);
      AddReaches(before, next, crName, urls, k + 1);
      assert Unnamed(urls, k + 1, f, urls[k].name);
      forall name | Unnamed(urls, k, f, name) ensures SameAt(Add(data, crName, urls, k), data, name) {
        assert Unnamed(urls, k + 1, f, name) && urls[k].name != name;
        assert SameAt(Add(next, crName, urls, k + 1), next, name);
      }
    }
  }

  /**
   For a resource that does not scale down, every variable ends up as wanted exactly when no variable
   that still has to change comes after one that is already in order.
   */
  lemma AllWantedIff(data: map<string, string>, crName: string, urls: seq<EnvVar>)
    requires crName != "" && DistinctNames(urls)
    requires forall j :: 0 <= j < |urls| ==> !Shrinks(data, crName, urls[j])
    ensures var after := Add(data, crName, urls, 0);
      (forall j :: 0 <= j < |urls| ==> IsWanted(after, data, crName, urls[j]))
      <==> (forall i, j :: 0 <= i < j < |urls| && Stops(data, crName, urls[i]) ==>
              IsWanted(data, data, crName, urls[j]))
  {
    var after, f := Add(data, crName, urls, 0), FirstStop(data, crName, urls, 0);
    AddReaches(data, data, crName, urls, 0);
    forall j | f <= j < |urls| ensures SameAt(after, data, urls[j].name) {
      assert Unnamed(urls, 0, f, urls[j].name);
    }
  }
}
