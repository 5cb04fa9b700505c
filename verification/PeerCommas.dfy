/**
 A variable whose value starts with a comma, as one stored with an empty value does once its peers have been
 added: it is updated like any other, and shrinking or deleting its resource tidies the comma away.
 */
module PeerCommas {
  import opened Text
  import opened MonitoringConsole
  import opened PeerLists
  import opened PeerUpdates

  /** Such a value splits into a blank entry and its peers, and the blank one sorts first. */
  lemma CommaSplits(list: seq<string>)
    requires Entries(list) && list != []
    ensures Split("," + Join(list, ','), ',') == [""] + list
    ensures SortStrings([""] + list) == [""] + SortStrings(list)
    ensures Tidy("," + Join(list, ',')) == Join(list, ',')
  {
    var value := Join(list, ',');
    SplitJoin(list, ',');
    assert ("," + value)[1..] == value && ([""] + list)[1..] == list;
    JoinIsClean(list);
  }

  lemma {:induction false} BlankIsNotOwn(list: seq<string>, crName: string)
    requires crName != ""
    ensures OwnText([""] + list, crName) == OwnText(list, crName)
  {
    var all := [""] + list;
    if list == [] {
      assert all[..0] == [] && OwnText(all[..0], crName) == "";
    } else {
      var k := |list| - 1;
      assert all[..k + 1] == [""] + list[..k] && all[k + 1] == list[k];
      BlankIsNotOwn(list[..k], crName);
    }
  }

  lemma ContainsBehindComma(s: string, e: string)
    requires e != "" && ',' !in e
    ensures Contains("," + s, e) <==> Contains(s, e)
  {
    assert ("," + s)[1..] == s;
    assert e[0] in e;
  }

  lemma {:induction false} AddBehindComma(s: string, entries: seq<string>)
    requires Entries(entries)
    ensures AddEntries("," + s, entries) == "," + AddEntries(s, entries)
    decreases |entries|
  {
    if entries != [] {
      var e := entries[0];
      ContainsBehindComma(s, e);
      assert ("," + s) + "," + e == "," + (s + "," + e);
      AddBehindComma(if Contains(s, e) then s else s + "," + e, entries[1..]);
    }
  }

  lemma DeleteBehindComma(list: seq<string>, crName: string, value: string)
    requires Entries(list) && list != [] && crName != ""
    ensures DeleteVar("," + Join(list, ','), crName, value) == DeleteVar(Join(list, ','), crName, value)
  {
    var s, sorted := "," + Join(list, ','), SortStrings(list);
    CommaSplits(list);
    SplitJoin(list, ',');
    assert ([""] + sorted)[1..] == sorted;
    assert DeleteOne(s, crName, value, "") == Join(list, ',');
  }

  lemma CommaGrows(data: map<string, string>, list: seq<string>, peers: seq<string>, a: nat, b: nat,
                   crName: string, url: EnvVar)
    requires Scene(list, peers, crName) && a < b <= |peers| && Own(list, crName) == peers[..a]
    requires url.name in data && data[url.name] == "," + Join(list, ',') && url.value == Join(peers[..b], ',')
    requires |OwnText(Split(data[url.name], ','), crName)| < |url.value|
    ensures Add(data, crName, [url], 0) == data[url.name := "," + Join(Updated(list, peers, a, b), ',')]
  {
    SplitJoin(peers[..b], ',');
    AddBehindComma(Join(list, ','), peers[..b]);
    ScaleUpRefines(list, peers, a, b, crName);
    AddLast(data[url.name := AddEntries(data[url.name], Split(url.value, ','))], crName, [url]);
  }

  lemma CommaShrinks(data: map<string, string>, list: seq<string>, peers: seq<string>, a: nat, b: nat,
                     crName: string, url: EnvVar)
    requires Scene(list, peers, crName) && b < a <= |peers| && Own(list, crName) == peers[..a]
    requires url.name in data && data[url.name] == "," + Join(list, ',') && url.value == Join(peers[..b], ',')
    requires |OwnText(Split(data[url.name], ','), crName)| > |url.value|
    ensures Add(data, crName, [url], 0) == Stored(data, url.name, Join(Updated(list, peers, a, b), ','))
  {
    DeleteBehindComma(list, crName, url.value);
    ScaleDownRefines(list, peers, a, b, crName);
    DeleteSingle(data, crName, url);
    AddLast(Delete(data, crName, [url]), crName, [url]);
  }

  /** The length comparison is the same as without the comma. */
  lemma CommaLengths(list: seq<string>, peers: seq<string>, a: nat, b: nat, crName: string)
    requires Scene(list, peers, crName) && a <= |peers| && b <= |peers| && Own(list, crName) == peers[..a]
    ensures var own := |OwnText(Split("," + Join(list, ','), ','), crName)|;
      var value := |Join(peers[..b], ',')|;
      && (own == value <==> a == b)
      && (own < value <==> a < b)
  {
    CommaSplits(list);
    SplitJoin(list, ',');
    BlankIsNotOwn(list, crName);
    LengthsDecide(list, peers, a, b, crName);
  }

  lemma CommaStays(data: map<string, string>, crName: string, url: EnvVar)
    requires crName != "" && url.name in data
    requires |OwnText(Split(data[url.name], ','), crName)| == |url.value|
    ensures Add(data, crName, [url], 0) == data
  {
  }

  /**
   Updating such a variable refines the update of its list: growing and standing still leave the comma, shrinking
   tidies it away.
   */
  lemma CommaUpdates(data: map<string, string>, name: string, list: seq<string>, peers: seq<string>,
                     a: nat, b: nat, crName: string)
    requires Scene(list, peers, crName) && a <= |peers| && b <= |peers| && Own(list, crName) == peers[..a]
    requires name in data && data[name] == "," + Join(list, ',')
    ensures var updated := Join(Updated(list, peers, a, b), ',');
      Add(data, crName, [EnvVar(name, Join(peers[..b], ','))], 0)
        == if b < a then Stored(data, name, updated) else data[name := "," + updated]
  {
    var url := EnvVar(name, Join(peers[..b], ','));
    CommaLengths(list, peers, a, b, crName);
    if a < b {
      CommaGrows(data, list, peers, a, b, crName, url);
    } else if b < a {
      CommaShrinks(data, list, peers, a, b, crName, url);
    } else {
      CommaStays(data, crName, url);
      assert Updated(list, peers, a, b) == list;
    }
  }

  lemma RemoveBehindComma(list: seq<string>, name: string, crName: string, value: string)
    requires Entries(list) && list != [] && crName != ""
    ensures RemoveVar("," + Join(list, ','), name, crName, value) == RemoveVar(Join(list, ','), name, crName, value)
  {
    var s, j, sorted := "," + Join(list, ','), Join(list, ','), SortStrings(list);
    CommaSplits(list);
    SplitJoin(list, ',');
    SortedLength(list);
    if name == SITE {
      SiteIsRemoved(s, crName, value, [""] + sorted);
      SiteIsRemoved(j, crName, value, sorted);
    } else {
      FirstIsTidied(s, name, crName, value, sorted);
    }
  }

  /** The blank entry only tidies the text. */
  lemma FirstIsTidied(s: string, name: string, crName: string, value: string, entries: seq<string>)
    requires name != SITE && crName != ""
    ensures RemoveListed(s, name, crName, value, [""] + entries) == RemoveListed(Tidy(s), name, crName, value, entries)
  {
    assert ([""] + entries)[1..] == entries;
    assert !Contains("", crName);
  }

  lemma {:induction false} SiteIsRemoved(s: string, crName: string, value: string, entries: seq<string>)
    requires entries != []
    ensures RemoveListed(s, SITE, crName, value, entries) == ""
    decreases |entries|
  {
    if |entries| > 1 {
      SiteIsRemoved("", crName, value, entries[1..]);
    }
  }

  lemma RemoveSingle(data: map<string, string>, crName: string, url: EnvVar)
    ensures Remove(data, crName, [url])
      == Stored(data, url.name, RemoveVar(Read(data, url.name), url.name, crName, url.value))
  {
    assert [url][1..] == [];
  }

  lemma StoredAnyway(data: map<string, string>, name: string, before: string, s: string)
    requires name in data
    ensures Stored(data[name := before], name, s) == Stored(data, name, s)
  {
  }

  /** Deleting the resource leaves of such a variable what it would leave without the comma. */
  lemma CommaIsRemoved(data: map<string, string>, list: seq<string>, crName: string, url: EnvVar)
    requires Entries(list) && list != [] && crName != ""
    requires url.name in data && data[url.name] == "," + Join(list, ',')
    ensures Remove(data, crName, [url]) == Remove(data[url.name := Join(list, ',')], crName, [url])
  {
    var plain := data[url.name := Join(list, ',')];
    RemoveSingle(data, crName, url);
    RemoveSingle(plain, crName, url);
    RemoveBehindComma(list, url.name, crName, url.value);
    StoredAnyway(data, url.name, Join(list, ','), RemoveVar(Join(list, ','), url.name, crName, url.value));
  }
}
