/**
 Removing a whole resource from the monitoring console: its joined peers are cut out as one text, which
 finds them only if they stand side by side.
 */
module PeerRemoval {
  import opened Text
  import opened MonitoringConsole
  import opened PeerLists
  import opened PeerUpdates
  import opened PeerVariables

  predicate OccursAt(list: seq<string>, peers: seq<string>, i: nat) {
    i + |peers| <= |list| && list[i..i + |peers|] == peers
  }

  /** The peers stand in the list side by side, in their order. */
  predicate Adjacent(list: seq<string>, peers: seq<string>) {
    exists i: nat :: i <= |list| && OccursAt(list, peers, i)
  }

  /** What a list and the peers to be cut out of it have to be for texts to be told apart. */
  ghost predicate Sound(list: seq<string>, peers: seq<string>) {
    Entries(list) && Entries(peers) && Apart(list + peers) && peers != []
  }

  /** The list with each occurrence of the peers blanked. */
  function Blanked(list: seq<string>, peers: seq<string>): (r: seq<string>)
    requires peers != []
    ensures r == [] <==> list == []
    decreases |list|
  {
    if list == [] then []
    else if OccursAt(list, peers, 0) then [""] + Blanked(list[|peers|..], peers)
    else [list[0]] + Blanked(list[1..], peers)
  }

  predicate Ends(tail: string) {
    tail == "" || tail[0] == ','
  }

  lemma FirstPiece(peers: seq<string>, f: string, tail: string)
    requires Entries(peers) && peers != [] && Ends(tail) && Join(peers, ',') <= f + tail
    ensures peers[0] <= f
  {
    assert peers[0] <= Join(peers, ',');
    if tail == "" {
      assert f + tail == f;
    } else {
      assert f + tail == f + [','] + tail[1..];
      PrefixAcross(f, tail[1..], peers[0], ',');
    }
  }

  function TailOf(list: seq<string>): (tail: string)
    requires list != []
    ensures Ends(tail) && Join(list, ',') == list[0] + tail
  {
    if |list| == 1 then "" else "," + Join(list[1..], ',')
  }

  lemma FirstAgrees(list: seq<string>, peers: seq<string>)
    requires Sound(list, peers) && list != [] && Join(peers, ',') <= Join(list, ',')
    ensures list[0] == peers[0]
    ensures |peers| > 1 ==> |list| > 1 && Join(peers[1..], ',') <= Join(list[1..], ',')
  {
    var p, e := peers[0], list[0];
    FirstPiece(peers, e, TailOf(list));
    ContainsAt(e, p, 0);
    assert e in list + peers && p in list + peers && e == p;
    if |peers| > 1 {
      RestBegins(p, Join(peers[1..], ','), TailOf(list));
    }
  }

  /** The joined peers begin a joined list only as its first entries. */
  lemma {:induction false} BeginsMeans(list: seq<string>, peers: seq<string>)
    requires Sound(list, peers) && list != [] && Join(peers, ',') <= Join(list, ',')
    ensures OccursAt(list, peers, 0)
    decreases |peers|
  {
    FirstAgrees(list, peers);
    if |peers| > 1 {
      SoundRest(list, peers);
      BeginsMeans(list[1..], peers[1..]);
      assert list[0..|peers|] == [list[0]] + list[1..][0..|peers| - 1];
    }
  }

  lemma SoundRest(list: seq<string>, peers: seq<string>)
    requires Sound(list, peers) && list != [] && |peers| > 1
    ensures Sound(list[1..], peers[1..])
  {
    ApartPart(list + peers, list[1..] + peers[1..]);
  }

  lemma RestBegins(p: string, v: string, tail: string)
    requires Ends(tail) && p + [','] + v <= p + tail
    ensures tail != "" && v <= tail[1..]
  {
    assert (p + [','] + v)[|p|..] == [','] + v && (p + tail)[|p|..] == tail;
    assert [','] + v <= tail;
  }

  lemma OwnBeginning(list: seq<string>, peers: seq<string>)
    requires peers != [] && OccursAt(list, peers, 0)
    ensures Join(list, ',') == Join(peers, ',') + if |list| == |peers| then "" else "," + Join(list[|peers|..], ',')
  {
    var post := list[|peers|..];
    assert list == peers + post;
    if post != [] {
      JoinAppend(peers, post, ',');
    } else {
      assert list == peers;
    }
  }

  /** No occurrence begins inside an entry. */
  lemma BeginsAtStart(list: seq<string>, peers: seq<string>, p: nat)
    requires Sound(list, peers) && list != [] && p <= |list[0]|
    requires Join(peers, ',') <= Join(list, ',')[p..]
    ensures p == 0
  {
    var e, tail := list[0], TailOf(list);
    assert (e + tail)[p..] == e[p..] + tail;
    FirstPiece(peers, e[p..], tail);
    ContainsAt(e, peers[0], p);
    assert e in list + peers && peers[0] in list + peers && e == peers[0];
  }

  /** Replacing passes over text in which no match begins. */
  lemma {:induction false} PassTo(s: string, t: string, n: nat)
    requires t != "" && n <= |s| && forall p :: 0 <= p < n ==> !(t <= s[p..])
    ensures ReplaceAll(s, t, "") == s[..n] + ReplaceAll(s[n..], t, "")
  {
    if n > 0 {
      assert s[0..] == s;
      forall p | 0 <= p < n - 1 ensures !(t <= s[1..][p..]) {
        assert s[1..][p..] == s[p + 1..];
      }
      PassTo(s[1..], t, n - 1);
      assert s[1..][n - 1..] == s[n..];
      assert [s[0]] + s[1..][..n - 1] == s[..n];
    }
  }

  lemma CutFirst(v: string, tail: string)
    requires v != "" && v[0] != ',' && tail != "" && tail[0] == ','
    ensures ReplaceAll(v + tail, v, "") == "," + ReplaceAll(tail[1..], v, "")
  {
    assert (v + tail)[|v|..] == tail && !(v <= tail);
  }

  lemma CutHere(list: seq<string>, peers: seq<string>, rest: seq<string>)
    requires OccursAt(list, peers, 0) && peers != [] && Join(peers, ',') != "" && Join(peers, ',')[0] != ','
    requires rest == [] <==> list[|peers|..] == []
    requires ReplaceAll(Join(list[|peers|..], ','), Join(peers, ','), "") == Join(rest, ',')
    ensures ReplaceAll(Join(list, ','), Join(peers, ','), "") == Join([""] + rest, ',')
  {
    var v, post := Join(peers, ','), list[|peers|..];
    OwnBeginning(list, peers);
    if post == [] {
      ReplaceSelf(v, "");
      assert v + "" == v;
    } else {
      CutFirst(v, "," + Join(post, ','));
      assert ("," + Join(post, ','))[1..] == Join(post, ',');
      JoinBlankFirst(rest);
    }
  }

  lemma PassEntry(list: seq<string>, peers: seq<string>)
    requires Sound(list, peers) && list != [] && !OccursAt(list, peers, 0)
    ensures Join(peers, ',') != ""
    ensures ReplaceAll(Join(list, ','), Join(peers, ','), "")
      == if |list| == 1 then list[0] else list[0] + "," + ReplaceAll(Join(list[1..], ','), Join(peers, ','), "")
  {
    var s, v, e := Join(list, ','), Join(peers, ','), list[0];
    JoinIsClean(peers);
    assert s[0..] == s;
    forall p: nat | p <= |e| ensures !(v <= s[p..]) {
      if v <= s[p..] {
        BeginsAtStart(list, peers, p);
        BeginsMeans(list, peers);
      }
    }
    if |list| == 1 {
      PassTo(s, v, |e|);
      assert s[..|e|] + "" == e;
    } else {
      PassTo(s, v, |e| + 1);
      assert s == e + "," + Join(list[1..], ',') && s[..|e| + 1] == e + "," && s[|e| + 1..] == Join(list[1..], ',');
    }
  }

  /** Cutting out the joined peers as a text blanks their occurrences in the list. */
  lemma {:induction false} ReplaceBlanks(list: seq<string>, peers: seq<string>)
    requires Sound(list, peers)
    ensures Join(peers, ',') != ""
    ensures ReplaceAll(Join(list, ','), Join(peers, ','), "") == Join(Blanked(list, peers), ',')
    decreases |list|
  {
    var v := Join(peers, ',');
    JoinIsClean(peers);
    if list == [] {
    } else if OccursAt(list, peers, 0) {
      ApartPart(list + peers, list[|peers|..] + peers);
      ReplaceBlanks(list[|peers|..], peers);
      CutHere(list, peers, Blanked(list[|peers|..], peers));
    } else {
      PassEntry(list, peers);
      ApartPart(list + peers, list[1..] + peers);
      ReplaceBlanks(list[1..], peers);
      var rest := Blanked(list[1..], peers);
      assert ([list[0]] + rest)[1..] == rest;
    }
  }

  lemma {:induction false} BlankedNone(list: seq<string>, peers: seq<string>)
    requires peers != [] && !Adjacent(list, peers)
    ensures Blanked(list, peers) == list
    decreases |list|
  {
    if list != [] {
      assert !OccursAt(list, peers, 0);
      forall i: nat | i <= |list| - 1 ensures !OccursAt(list[1..], peers, i) {
        var next := i + 1;
        assert !OccursAt(list, peers, next);
        assert next + |peers| <= |list| ==> list[1..][i..i + |peers|] == list[next..next + |peers|];
      }
      BlankedNone(list[1..], peers);
    }
  }

  lemma OccursMeans(list: seq<string>, peers: seq<string>, i: nat, k: nat)
    requires OccursAt(list, peers, i) && k < |peers|
    ensures list[i + k] == peers[k]
  {
    assert list[i..i + |peers|][k] == list[i + k];
  }

  lemma NotAdjacentWithout(list: seq<string>, peers: seq<string>)
    requires peers != [] && peers[0] !in list
    ensures !Adjacent(list, peers)
  {
    forall i: nat | i <= |list| ensures !OccursAt(list, peers, i) {
      if OccursAt(list, peers, i) {
        OccursMeans(list, peers, i, 0);
      }
    }
  }

  /** The list without the peers that stand at `i`. */
  function Cut(list: seq<string>, peers: seq<string>, i: nat): seq<string>
    requires OccursAt(list, peers, i)
  {
    list[..i] + list[i + |peers|..]
  }

  lemma CutDrops(list: seq<string>, peers: seq<string>, i: nat)
    requires peers != [] && Distinct(list) && OccursAt(list, peers, i)
    ensures peers[0] !in Cut(list, peers, i) && Distinct(Cut(list, peers, i)) && !Adjacent(Cut(list, peers, i), peers)
  {
    OccursMeans(list, peers, i, 0);
    NotAdjacentWithout(Cut(list, peers, i), peers);
  }

  lemma OnlyOnce(list: seq<string>, peers: seq<string>, i: nat)
    requires peers != [] && Distinct(list) && OccursAt(list, peers, i) && i > 0
    ensures !OccursAt(list, peers, 0)
  {
    OccursMeans(list, peers, i, 0);
    assert list[0] != peers[0];
  }

  lemma SlicesShift(list: seq<string>, i: nat, j: nat)
    requires 0 < i <= j <= |list|
    ensures list[..i] + [""] + list[j..] == [list[0]] + (list[1..][..i - 1] + [""] + list[1..][j - 1..])
  {
    assert list[..i] == [list[0]] + list[1..][..i - 1];
    assert list[j..] == list[1..][j - 1..];
  }

  lemma {:induction false} BlankedAt(list: seq<string>, peers: seq<string>, i: nat)
    requires peers != [] && Distinct(list) && OccursAt(list, peers, i)
    ensures Blanked(list, peers) == list[..i] + [""] + list[i + |peers|..]
    decreases |list|
  {
    OccursMeans(list, peers, i, 0);
    if i == 0 {
      NotAdjacentWithout(list[|peers|..], peers);
      BlankedNone(list[|peers|..], peers);
    } else {
      assert list[0] != list[i];
      OnlyOnce(list, peers, i);
      assert list[1..][i - 1..i - 1 + |peers|] == list[i..i + |peers|];
      BlankedAt(list[1..], peers, i - 1);
      SlicesShift(list, i, i + |peers|);
    }
  }

  /** Peers that do not stand side by side are not removed. */
  lemma RemoveOneFails(list: seq<string>, peers: seq<string>, name: string, crName: string, entry: string)
    requires Sound(list, peers) && !Adjacent(list, peers) && name != SITE
    ensures RemoveOne(Join(list, ','), name, crName, Join(peers, ','), entry) == Join(list, ',')
  {
    ReplaceBlanks(list, peers);
    BlankedNone(list, peers);
    JoinIsClean(list);
    TidyClean(Join(list, ','));
  }

  lemma TidyAround(a: seq<string>, e: string, b: seq<string>)
    requires Entries(a) && Entries(b) && e != "" && ',' !in e
    ensures Tidy(Join(a + [""] + b, ',')) == Join(a + b, ',')
  {
    var list := a + [e] + b;
    assert list[|a| := ""] == a + [""] + b;
    TidyBlank(list, |a|);
    assert list[..|a|] + list[|a| + 1..] == a + b;
  }

  lemma RemoveOneCuts(list: seq<string>, peers: seq<string>, i: nat, name: string, crName: string, entry: string)
    requires Sound(list, peers) && Distinct(list) && OccursAt(list, peers, i) && name != SITE
    ensures RemoveOne(Join(list, ','), name, crName, Join(peers, ','), entry)
      == Join(if Contains(entry, crName) then Cut(list, peers, i) else list, ',')
  {
    if Contains(entry, crName) {
      ReplaceBlanks(list, peers);
      BlankedAt(list, peers, i);
      TidyAround(list[..i], peers[0], list[i + |peers|..]);
    } else {
      JoinIsClean(list);
      TidyClean(Join(list, ','));
    }
  }

  lemma {:induction false} RemoveListedFails(list: seq<string>, peers: seq<string>, name: string, crName: string,
                                             entries: seq<string>)
    requires Sound(list, peers) && !Adjacent(list, peers) && name != SITE
    ensures RemoveListed(Join(list, ','), name, crName, Join(peers, ','), entries) == Join(list, ',')
    decreases |entries|
  {
    if entries != [] {
      RemoveOneFails(list, peers, name, crName, entries[0]);
      RemoveListedFails(list, peers, name, crName, entries[1..]);
    }
  }

  lemma {:induction false} RemoveListedCuts(list: seq<string>, peers: seq<string>, i: nat, name: string, crName: string,
                                            entries: seq<string>, own: string)
    requires Sound(list, peers) && Distinct(list) && OccursAt(list, peers, i) && name != SITE
    requires own in entries && Contains(own, crName)
    ensures RemoveListed(Join(list, ','), name, crName, Join(peers, ','), entries) == Join(Cut(list, peers, i), ',')
    decreases |entries|
  {
    RemoveOneCuts(list, peers, i, name, crName, entries[0]);
    if Contains(entries[0], crName) {
      CutDrops(list, peers, i);
      ApartPart(list + peers, Cut(list, peers, i) + peers);
      RemoveListedFails(Cut(list, peers, i), peers, name, crName, entries[1..]);
    } else {
      RemoveListedCuts(list, peers, i, name, crName, entries[1..], own);
    }
  }

  /** Removing a resource cuts its peers out of a variable where they stand side by side. */
  lemma RemoveVarCuts(list: seq<string>, peers: seq<string>, i: nat, name: string, crName: string)
    requires Scene(list, peers, crName) && peers != [] && OccursAt(list, peers, i) && name != SITE
    ensures RemoveVar(Join(list, ','), name, crName, Join(peers, ',')) == Join(Cut(list, peers, i), ',')
  {
    var entries := SortStrings(Split(Join(list, ','), ','));
    SplitJoin(list, ',');
    OccursMeans(list, peers, i, 0);
    assert peers[0] in multiset(list);
    assert peers[0] in multiset(entries);
    RemoveListedCuts(list, peers, i, name, crName, entries, peers[0]);
  }

  lemma RemoveVarFails(list: seq<string>, peers: seq<string>, name: string, crName: string)
    requires Scene(list, peers, crName) && peers != [] && !Adjacent(list, peers) && name != SITE
    ensures RemoveVar(Join(list, ','), name, crName, Join(peers, ',')) == Join(list, ',')
  {
    RemoveListedFails(list, peers, name, crName, SortStrings(Split(Join(list, ','), ',')));
  }

  lemma CutLeavesOthers(list: seq<string>, peers: seq<string>, i: nat, crName: string)
    requires Own(list, crName) == peers && OccursAt(list, peers, i)
    ensures Cut(list, peers, i) == Others(list, crName)
  {
    assert list == list[..i] + (peers + list[i + |peers|..]);
    OthersAround(list[..i], peers, list[i + |peers|..], crName);
  }

  lemma OthersAround(a: seq<string>, peers: seq<string>, b: seq<string>, crName: string)
    requires Own(a + (peers + b), crName) == peers
    ensures Others(a + (peers + b), crName) == a + b
  {
    NoneOwnAround(a, peers, b, crName);
    OthersAppend(a, peers + b, crName);
    OthersAppend(peers, b, crName);
    OwnOfOwn(peers, crName);
    assert [] + b == b;
  }

  lemma NoneOwnAround(a: seq<string>, peers: seq<string>, b: seq<string>, crName: string)
    requires Own(a + (peers + b), crName) == peers
    ensures Others(a, crName) == a && Others(b, crName) == b
  {
    OwnAppend(a, peers + b, crName);
    OwnAppend(peers, b, crName);
    OwnOfOwn(peers, crName);
    assert |Own(a, crName)| + |peers| + |Own(b, crName)| == |peers|;
    NoneOwn(a, crName);
    NoneOwn(b, crName);
  }

  lemma {:induction false} NoneOwn(list: seq<string>, crName: string)
    ensures Own(list, crName) == [] ==> Others(list, crName) == list
  {
    if list != [] {
      NoneOwn(list[1..], crName);
    }
  }

  /**
   Removing a resource leaves a variable with everyone else's peers alone exactly when its own stand side
   by side; otherwise it leaves the variable as it was, with all of them.
   */
  lemma RemovedIff(list: seq<string>, peers: seq<string>, name: string, crName: string)
    requires Scene(list, peers, crName) && peers != [] && Own(list, crName) == peers && name != SITE
    ensures var after := RemoveVar(Join(list, ','), name, crName, Join(peers, ','));
      && (after == Join(Others(list, crName), ',') <==> Adjacent(list, peers))
      && (after == Join(list, ',') <==> !Adjacent(list, peers))
  {
    OthersDiffer(list, peers, crName);
    if i: nat :| i <= |list| && OccursAt(list, peers, i) {
      RemoveVarCuts(list, peers, i, name, crName);
      CutLeavesOthers(list, peers, i, crName);
    } else {
      RemoveVarFails(list, peers, name, crName);
    }
  }

  lemma {:induction false} OthersAre(list: seq<string>, crName: string)
    ensures forall e :: e in Others(list, crName) <==> e in list && !Contains(e, crName)
  {
    if list != [] {
      OthersAre(list[1..], crName);
      assert list == [list[0]] + list[1..];
    }
  }

  lemma OthersDiffer(list: seq<string>, peers: seq<string>, crName: string)
    requires Scene(list, peers, crName) && peers != [] && Own(list, crName) == peers
    ensures Join(Others(list, crName), ',') != Join(list, ',')
  {
    var others := Others(list, crName);
    OthersAre(list, crName);
    JoinIsClean(list);
    assert peers[0] in Own(list, crName);
    if others != [] {
      forall k | 0 <= k < |others| ensures ',' !in others[k] {
        assert others[k] in list;
      }
      SplitJoin(list, ',');
      SplitJoin(others, ',');
    }
  }

  lemma GrownIsNotAdjacent(list: seq<string>, peers: seq<string>, a: nat, b: nat)
    requires 0 < a < b <= |peers| && list != [] && list[|list| - 1] != peers[a - 1]
    requires Distinct(list + peers[a..b])
    ensures !Adjacent(list + peers[a..b], peers[..b])
  {
    var grown := list + peers[a..b];
    assert grown[|list|] == peers[a];
    forall i: nat | i <= |grown| ensures !OccursAt(grown, peers[..b], i) {
      if OccursAt(grown, peers[..b], i) {
        OccursMeans(grown, peers[..b], i, a);
        OccursMeans(grown, peers[..b], i, a - 1);
      }
    }
  }

  /** A resource that grew after another one had joined can no longer be removed. */
  lemma GrownIsNeverRemoved(list: seq<string>, peers: seq<string>, a: nat, b: nat, name: string, crName: string)
    requires Scene(list, peers, crName) && 0 < a < b <= |peers| && Own(list, crName) == peers[..a] && name != SITE
    requires !Contains(list[|list| - 1], crName)
    ensures var grown := Join(Updated(list, peers, a, b), ',');
      RemoveVar(grown, name, crName, Join(peers[..b], ',')) == grown
  {
    var grown := Updated(list, peers, a, b);
    SceneIsKept(list, peers, a, b, crName);
    ApartPart(grown + peers, grown + peers[..b]);
    GrownIsNotAdjacent(list, peers, a, b);
    RemoveVarFails(grown, peers[..b], name, crName);
  }

  /** The site is gone after any removal that names it. */
  lemma SiteGoes(s: string, crName: string, value: string)
    ensures RemoveVar(s, SITE, crName, value) == ""
  {
    var entries := SortStrings(Split(s, ','));
    SortedLength(Split(s, ','));
    SiteStaysGone(RemoveOne(s, SITE, crName, value, entries[0]), crName, value, entries[1..]);
  }

  lemma {:induction false} SiteStaysGone(s: string, crName: string, value: string, entries: seq<string>)
    requires s == ""
    ensures RemoveListed(s, SITE, crName, value, entries) == ""
    decreases |entries|
  {
    if entries != [] {
      SiteStaysGone("", crName, value, entries[1..]);
    }
  }

  /** Removal treats each variable by itself. */
  lemma {:induction false} RemoveAt(data: map<string, string>, crName: string, urls: seq<EnvVar>, j: nat)
    requires DistinctNames(urls) && j < |urls|
    ensures Read(Remove(data, crName, urls), urls[j].name)
      == RemoveVar(Read(data, urls[j].name), urls[j].name, crName, urls[j].value)
    ensures urls[j].name in Remove(data, crName, urls) <==> Read(Remove(data, crName, urls), urls[j].name) != ""
    decreases |urls|
  {
    var head := Stored(data, urls[0].name, RemoveVar(Read(data, urls[0].name), urls[0].name, crName, urls[0].value));
    if j == 0 {
      RemoveElsewhere(head, crName, urls[1..], urls[0].name);
    } else {
      assert urls[0].name != urls[j].name && urls[1..][j - 1] == urls[j];
      RemoveAt(head, crName, urls[1..], j - 1);
    }
  }

  lemma {:induction false} RemoveElsewhere(data: map<string, string>, crName: string, urls: seq<EnvVar>, name: string)
    requires forall i :: 0 <= i < |urls| ==> urls[i].name != name
    ensures Read(Remove(data, crName, urls), name) == Read(data, name)
    ensures name in Remove(data, crName, urls) <==> name in data
    decreases |urls|
  {
    if urls != [] {
      var head := Stored(data, urls[0].name, RemoveVar(Read(data, urls[0].name), urls[0].name, crName, urls[0].value));
      RemoveElsewhere(head, crName, urls[1..], name);
    }
  }

  /** The variables of a resource that is deleted, and its site. */
  function AllUrls(vars: seq<Variable>, site: string): seq<EnvVar>
    requires forall k :: 0 <= k < |vars| ==> vars[k].after <= |vars[k].peers|
  {
    Urls(vars) + [EnvVar(SITE, site)]
  }

  /** A variable has all of the resource's peers, and is to have them no longer. */
  ghost predicate HasAll(data: map<string, string>, v: Variable, crName: string) {
    && v.Fits(crName) && v.before == v.after == |v.peers| && v.list != [] && v.name != SITE
    && v.name in data && data[v.name] == Join(v.list, ',')
  }

  lemma VariableIsRemovedIff(data: map<string, string>, vars: seq<Variable>, site: string, crName: string, k: nat)
    requires AllFit(vars, crName) && DistinctNames(AllUrls(vars, site)) && k < |vars| && HasAll(data, vars[k], crName)
    ensures var v, after := vars[k], Read(Remove(data, crName, AllUrls(vars, site)), vars[k].name);
      && (after == Join(Others(v.list, crName), ',') <==> Adjacent(v.list, v.peers))
      && (after == Join(v.list, ',') <==> !Adjacent(v.list, v.peers))
  {
    var v, urls := vars[k], AllUrls(vars, site);
    assert v.peers[..v.after] == v.peers[..v.before] == v.peers;
    assert urls[k] == v.Url();
    RemoveAt(data, crName, urls, k);
    RemovedIff(v.list, v.peers, v.name, crName);
  }

  /**
   Deleting a resource takes its peers out of all its variables exactly when they stand side by side in
   each; where they do not, all of them stay. Its site is gone in any case.
   */
  lemma ResourceIsRemovedIff(data: map<string, string>, vars: seq<Variable>, site: string, crName: string)
    requires AllFit(vars, crName) && DistinctNames(AllUrls(vars, site))
    requires forall k :: 0 <= k < |vars| ==> HasAll(data, vars[k], crName)
    ensures var after := Remove(data, crName, AllUrls(vars, site));
      && SITE !in after
      && ((forall k :: 0 <= k < |vars| ==> Read(after, vars[k].name) == Join(Others(vars[k].list, crName), ','))
          <==> (forall k :: 0 <= k < |vars| ==> Adjacent(vars[k].list, vars[k].peers)))
      && (forall k :: 0 <= k < |vars| && !Adjacent(vars[k].list, vars[k].peers) ==>
            Read(after, vars[k].name) == Join(vars[k].list, ','))
  {
    var urls := AllUrls(vars, site);
    var after := Remove(data, crName, urls);
    RemoveAt(data, crName, urls, |vars|);
    SiteGoes(Read(data, SITE), crName, site);
    forall k: nat | k < |vars|
      ensures Read(after, vars[k].name) == Join(Others(vars[k].list, crName), ',') <==>
        Adjacent(vars[k].list, vars[k].peers)
      ensures Read(after, vars[k].name) == Join(vars[k].list, ',') <==> !Adjacent(vars[k].list, vars[k].peers)
    {
      VariableIsRemovedIff(data, vars, site, crName, k);
    }
  }
}
