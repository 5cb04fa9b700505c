/**
 The text edits of MonitoringConsole, read as edits of the list of peers: own entries become the new
 ones, and every other entry stays where it is.
 */
module PeerLists {
  import opened Text
  import opened MonitoringConsole

  ghost predicate Entries(list: seq<string>) {
    forall i :: 0 <= i < |list| ==> list[i] != "" && ',' !in list[i]
  }

  /** No entry is part of another. */
  ghost predicate Apart(list: seq<string>) {
    forall x, y :: x in list && y in list && x != y ==> !Contains(x, y)
  }

  ghost predicate Distinct(list: seq<string>) {
    forall i, j :: 0 <= i < j < |list| ==> list[i] != list[j]
  }

  function Without(list: seq<string>, gone: set<string>): (r: seq<string>)
    ensures forall e :: e in r <==> e in list && e !in gone
  {
    if list == [] then []
    else if list[0] in gone then Without(list[1..], gone)
    else [list[0]] + Without(list[1..], gone)
  }

  /** The entries with the resource's name in them. */
  function Own(list: seq<string>, crName: string): (r: seq<string>)
    ensures forall e :: e in r <==> e in list && Contains(e, crName)
  {
    if list == [] then []
    else if Contains(list[0], crName) then [list[0]] + Own(list[1..], crName)
    else Own(list[1..], crName)
  }

  function Others(list: seq<string>, crName: string): seq<string> {
    if list == [] then []
    else if Contains(list[0], crName) then Others(list[1..], crName)
    else [list[0]] + Others(list[1..], crName)
  }

  /** Neither leading, trailing nor double commas. */
  predicate Clean(s: string) {
    s == "" || (s[0] != ',' && s[|s| - 1] != ',' && !Contains(s, ",,"))
  }

  lemma {:induction false} NoDoubleAcross(a: string, b: string)
    requires ',' !in a && b != "" && b[0] != ',' && !Contains(b, ",,")
    ensures !Contains(a + "," + b, ",,")
  {
    var s := a + "," + b;
    if a == "" {
      assert s[1..] == b;
    } else {
      assert s[1..] == a[1..] + "," + b;
      NoDoubleAcross(a[1..], b);
      assert s[0] != ',';
    }
  }

  lemma {:induction false} NoDoubleWithin(e: string)
    requires ',' !in e
    ensures !Contains(e, ",,")
  {
    if e != "" {
      NoDoubleWithin(e[1..]);
      assert e[0] in e;
    }
  }

  lemma {:induction false} JoinIsClean(list: seq<string>)
    requires Entries(list)
    ensures Clean(Join(list, ','))
    ensures list != [] ==> Join(list, ',') != ""
  {
    if |list| == 1 {
      var e := list[0];
      NoDoubleWithin(e);
      assert e[0] in e && e[|e| - 1] in e;
    } else if |list| > 1 {
      var e, rest := list[0], Join(list[1..], ',');
      JoinIsClean(list[1..]);
      NoDoubleAcross(e, rest);
      assert e[0] in e;
    }
  }

  lemma TidyClean(s: string)
    requires Clean(s)
    ensures Tidy(s) == s
  {
  }

  lemma NoEarlierDouble(a: string, b: string)
    requires a != "" && a[|a| - 1] != ',' && !(",," <= a)
    ensures !(",," <= a + b)
  {
    var s := a + b;
    if |a| == 1 {
      assert s[0] != ',';
    } else {
      assert s[..2] == a[..2];
    }
  }

  lemma PassOne(a: string, b: string)
    requires a != "" && a[|a| - 1] != ',' && !(",," <= a)
    ensures ReplaceAll(a + b, ",,", ",") == [a[0]] + ReplaceAll(a[1..] + b, ",,", ",")
  {
    NoEarlierDouble(a, b);
    assert (a + b)[1..] == a[1..] + b && (a + b)[0] == a[0];
  }

  lemma {:induction false} PassOver(a: string, b: string)
    requires !Contains(a, ",,") && (a != "" ==> a[|a| - 1] != ',')
    ensures ReplaceAll(a + b, ",,", ",") == a + ReplaceAll(b, ",,", ",")
    decreases |a|
  {
    var replaced := ReplaceAll(b, ",,", ",");
    if a == "" {
      assert a + b == b && a + replaced == replaced;
    } else {
      PassOne(a, b);
      PassOver(a[1..], b);
      assert [a[0]] + (a[1..] + replaced) == a + replaced;
    }
  }

  lemma CollapseDouble(a: string, b: string)
    requires !Contains(a, ",,") && (a != "" ==> a[|a| - 1] != ',') && !Contains(b, ",,")
    ensures ReplaceAll(a + ",," + b, ",,", ",") == a + "," + b
  {
    var rest := ",," + b;
    assert a + ",," + b == a + rest && rest[2..] == b;
    PassOver(a, rest);
    ReplaceAbsent(b, ",,", ",");
    assert a + "," + b == a + ("," + b);
  }

  /** What is left when the entry at `i` has been blanked out is tidied into the list without it. */
  lemma TidyBlank(list: seq<string>, i: nat)
    requires Entries(list) && i < |list|
    ensures Tidy(Join(list[i := ""], ',')) == Join(list[..i] + list[i + 1..], ',')
  {
    var before, after := list[..i], list[i + 1..];
    JoinIsClean(before);
    JoinIsClean(after);
    if after == [] {
      TidyBlankLast(list, i);
    } else if before == [] {
      TidyBlankFirst(list);
    } else {
      assert list[i := ""] == before + ([""] + after);
      JoinAppend(before, [""] + after, ',');
      JoinBlankFirst(after);
      JoinAppend(before, after, ',');
      TidyMiddle(Join(before, ','), Join(after, ','));
      assert Join(before, ',') + "," + ("," + Join(after, ',')) == Join(before, ',') + ",," + Join(after, ',');
    }
  }

  lemma JoinBlankFirst(list: seq<string>)
    requires list != []
    ensures Join([""] + list, ',') == "," + Join(list, ',')
  {
    assert ([""] + list)[1..] == list;
    assert Join([""] + list, ',') == "" + "," + Join(list, ',');
  }

  lemma TidyBlankFirst(list: seq<string>)
    requires Entries(list) && |list| > 1
    ensures Tidy(Join(list[0 := ""], ',')) == Join(list[..0] + list[1..], ',')
  {
    JoinIsClean(list[1..]);
    assert list[0 := ""] == [""] + list[1..] && list[..0] + list[1..] == list[1..];
    JoinBlankFirst(list[1..]);
    TidyLeading(Join(list[1..], ','));
  }

  lemma TidyBlankLast(list: seq<string>, i: nat)
    requires Entries(list) && i + 1 == |list|
    ensures Tidy(Join(list[i := ""], ',')) == Join(list[..i] + list[i + 1..], ',')
  {
    var before := list[..i];
    JoinIsClean(before);
    assert list[i := ""] == before + [""] && before + list[i + 1..] == before;
    if before != [] {
      JoinAppend(before, [""], ',');
      TidyTrailing(Join(before, ','));
    }
  }

  lemma TidyLeading(b: string)
    requires Clean(b) && b != ""
    ensures Tidy("," + b) == b
  {
    assert ("," + b)[1..] == b;
  }

  lemma TidyTrailing(a: string)
    requires Clean(a) && a != ""
    ensures Tidy(a + "," + "") == a
  {
    var s := a + "," + "";
    assert s == a + ",";
    assert s[0] == a[0] && s[..|s| - 1] == a;
  }

  lemma TidyMiddle(a: string, b: string)
    requires Clean(a) && Clean(b) && a != "" && b != ""
    ensures Tidy(a + ",," + b) == a + "," + b
  {
    var s := a + ",," + b;
    assert s[0] == a[0] && s[|s| - 1] == b[|b| - 1];
    CollapseDouble(a, b);
    assert s[|a|..|a| + 2] == ",,";
    ContainsAt(s, ",,", |a|);
  }

  /** Blanking out one entry by replacing its text everywhere. */
  lemma BlankOut(list: seq<string>, i: nat)
    requires Entries(list) && Apart(list) && Distinct(list) && i < |list|
    ensures ReplaceAll(Join(list, ','), list[i], "") == Join(list[i := ""], ',')
  {
    var blanked := ReplaceEach(list, list[i], "");
    ReplaceJoin(list, list[i], "", ',');
    forall j: nat | j < |list| ensures blanked[j] == list[i := ""][j] {
      BlankEntry(list, i, j);
    }
    assert blanked == list[i := ""];
  }

  lemma BlankEntry(list: seq<string>, i: nat, j: nat)
    requires Entries(list) && Apart(list) && Distinct(list) && i < |list| && j < |list|
    ensures ReplaceAll(list[j], list[i], "") == if j == i then "" else list[j]
  {
    if j == i {
      ReplaceSelf(list[i], "");
    } else {
      assert list[i] in list && list[j] in list;
      assert list[i] != list[j];
      ReplaceAbsent(list[j], list[i], "");
    }
  }

  lemma {:induction false} WithoutNone(list: seq<string>, gone: set<string>)
    requires forall e <- list :: e !in gone
    ensures Without(list, gone) == list
  {
    if list != [] {
      assert list == [list[0]] + list[1..];
      WithoutNone(list[1..], gone);
    }
  }

  lemma {:induction false} WithoutOne(list: seq<string>, i: nat)
    requires Distinct(list) && i < |list|
    ensures Without(list, {list[i]}) == list[..i] + list[i + 1..]
  {
    assert list == [list[0]] + list[1..];
    if i == 0 {
      WithoutNone(list[1..], {list[0]});
    } else {
      var rest := list[1..];
      assert rest[i - 1] == list[i] && list[0] != list[i];
      WithoutOne(rest, i - 1);
      assert Without(list, {list[i]}) == [list[0]] + (rest[..i - 1] + rest[i..]);
      assert list[..i] == [list[0]] + rest[..i - 1] && list[i + 1..] == rest[i..];
    }
  }

  lemma {:induction false} WithoutMore(list: seq<string>, a: set<string>, b: set<string>)
    ensures Without(Without(list, a), b) == Without(list, a + b)
  {
    if list != [] {
      WithoutMore(list[1..], a, b);
      var rest := Without(list[1..], a);
      if list[0] !in a {
        assert Without(list, a) == [list[0]] + rest && ([list[0]] + rest)[1..] == rest;
      }
    }
  }

  lemma {:induction false} WithoutKeepsDistinct(list: seq<string>, gone: set<string>)
    requires Distinct(list) && Entries(list)
    ensures Distinct(Without(list, gone)) && Entries(Without(list, gone))
  {
    if list != [] {
      WithoutKeepsDistinct(list[1..], gone);
      assert forall j :: 0 <= j < |list[1..]| ==> list[1..][j] == list[j + 1];
    }
  }

  /** An entry's text cannot be found in a list that does not hold the entry. */
  lemma FoundIffHeld(list: seq<string>, e: string)
    requires Apart(list + [e]) && e != "" && ',' !in e
    ensures Contains(Join(list, ','), e) <==> e in list
  {
    ContainsJoin(list, e, ',');
    if e in list {
      ContainsSelf(e);
    } else {
      forall x | x in list ensures !Contains(x, e) {
        assert x in list + [e] && e in list + [e];
      }
    }
  }

  /** Deleting one entry. */
  lemma DeleteOneRefines(list: seq<string>, crName: string, value: string, e: string)
    requires Entries(list) && Distinct(list) && Apart(list + [e]) && e != "" && ',' !in e && crName != ""
    ensures DeleteOne(Join(list, ','), crName, value, e)
      == Join(Without(list, if Doomed(crName, value, e) then {e} else {}), ',')
  {
    JoinIsClean(list);
    TidyClean(Join(list, ','));
    WithoutNone(list, {});
    if Doomed(crName, value, e) {
      FoundIffHeld(list, e);
      if e in list {
        var i :| 0 <= i < |list| && list[i] == e;
        ApartWithin(list, e);
        BlankOut(list, i);
        TidyBlank(list, i);
        WithoutOne(list, i);
      } else {
        ReplaceAbsent(Join(list, ','), e, "");
        WithoutNone(list, {e});
      }
    }
  }

  lemma ApartWithin(list: seq<string>, e: string)
    requires Apart(list + [e])
    ensures Apart(list)
  {
    assert forall x <- list :: x in list + [e];
  }

  ghost function DoomedIn(crName: string, value: string, entries: seq<string>): set<string> {
    set e | e in entries && Doomed(crName, value, e)
  }

  /** Deleting entries one after the other, in any order; all of them and the list are from `all`. */
  lemma {:induction false} DeleteListedRefines(list: seq<string>, all: seq<string>, crName: string,
                                               value: string, entries: seq<string>)
    requires Entries(list) && Distinct(list) && Entries(entries) && crName != ""
    requires Apart(all) && (forall e <- list :: e in all) && (forall e <- entries :: e in all)
    ensures DeleteListed(Join(list, ','), crName, value, entries)
      == Join(Without(list, DoomedIn(crName, value, entries)), ',')
    decreases |entries|
  {
    if entries == [] {
      WithoutNone(list, DoomedIn(crName, value, entries));
    } else {
      var gone := if Doomed(crName, value, entries[0]) then {entries[0]} else {};
      DeleteOneRefines(list, crName, value, entries[0]);
      WithoutKeepsDistinct(list, gone);
      DeleteListedRefines(Without(list, gone), all, crName, value, entries[1..]);
      WithoutMore(list, gone, DoomedIn(crName, value, entries[1..]));
      DoomedSplit(crName, value, entries);
    }
  }

  lemma DoomedSplit(crName: string, value: string, entries: seq<string>)
    requires entries != []
    ensures DoomedIn(crName, value, entries)
      == (if Doomed(crName, value, entries[0]) then {entries[0]} else {}) + DoomedIn(crName, value, entries[1..])
  {
    assert entries == [entries[0]] + entries[1..];
  }

  lemma SameMembers(a: seq<string>, b: seq<string>)
    requires multiset(a) == multiset(b)
    ensures forall e :: e in a <==> e in b
  {
    forall e ensures e in a <==> e in b {
      assert e in multiset(a) <==> e in multiset(b);
    }
  }

  /** Deleting from a variable removes exactly the doomed entries, and leaves the others in order. */
  lemma DeleteVarRefines(list: seq<string>, crName: string, value: string)
    requires Entries(list) && Distinct(list) && Apart(list) && crName != "" && list != []
    ensures DeleteVar(Join(list, ','), crName, value) == Join(Without(list, DoomedIn(crName, value, list)), ',')
  {
    var sorted := SortStrings(list);
    SplitJoin(list, ',');
    SameMembers(sorted, list);
    forall i | 0 <= i < |sorted| ensures sorted[i] != "" && ',' !in sorted[i] {
      assert sorted[i] in list;
    }
    DeleteListedRefines(list, list, crName, value, sorted);
    assert DoomedIn(crName, value, sorted) == DoomedIn(crName, value, list);
  }

  lemma {:induction false} OwnAppend(list: seq<string>, more: seq<string>, crName: string)
    ensures Own(list + more, crName) == Own(list, crName) + Own(more, crName)
  {
    if list == [] {
      assert list + more == more;
    } else {
      assert (list + more)[1..] == list[1..] + more && (list + more)[0] == list[0];
      OwnAppend(list[1..], more, crName);
    }
  }

  lemma {:induction false} OthersAppend(list: seq<string>, more: seq<string>, crName: string)
    ensures Others(list + more, crName) == Others(list, crName) + Others(more, crName)
  {
    if list == [] {
      assert list + more == more;
    } else {
      assert (list + more)[1..] == list[1..] + more && (list + more)[0] == list[0];
      OthersAppend(list[1..], more, crName);
    }
  }

  lemma OwnSnoc(list: seq<string>, e: string, crName: string)
    ensures Own(list + [e], crName) == if Contains(e, crName) then Own(list, crName) + [e] else Own(list, crName)
  {
    OwnAppend(list, [e], crName);
    assert Own([e], crName) == if Contains(e, crName) then [e] else [];
  }

  lemma OwnTextStep(earlier: seq<string>, e: string, crName: string)
    ensures OwnText(earlier + [e], crName) ==
      var text := OwnText(earlier, crName);
      if !Contains(e, crName) then text else if text == "" then e else e + "," + text
  {
    assert (earlier + [e])[..|earlier|] == earlier;
  }

  lemma JoinSnocLength(own: seq<string>, e: string)
    ensures |Join(own + [e], ',')| == |e| + if own == [] then 0 else |Join(own, ',')| + 1
  {
    if own == [] {
      assert own + [e] == [e];
    } else {
      JoinAppend(own, [e], ',');
    }
  }

  /** The collected text is as long as the own entries joined. */
  lemma {:induction false} OwnTextLength(list: seq<string>, crName: string)
    requires Entries(list)
    ensures |OwnText(list, crName)| == |Join(Own(list, crName), ',')|
    ensures Entries(Own(list, crName))
    decreases |list|
  {
    if list != [] {
      var earlier, e := list[..|list| - 1], list[|list| - 1];
      assert list == earlier + [e];
      OwnTextLength(earlier, crName);
      OwnTextStep(earlier, e, crName);
      OwnSnoc(earlier, e, crName);
      JoinIsClean(Own(earlier, crName));
      JoinSnocLength(Own(earlier, crName), e);
    }
  }

  lemma LongerJoin(p: seq<string>, a: nat, b: nat)
    requires Entries(p) && a < b <= |p|
    ensures |Join(p[..a], ',')| < |Join(p[..b], ',')|
  {
    assert p[..b] == p[..a] + p[a..b];
    JoinIsClean(p[a..b]);
    if a > 0 {
      JoinAppend(p[..a], p[a..b], ',');
    } else {
      assert p[..b] == p[a..b];
    }
  }

  /** Appending the entries that are not held yet. */
  function Extend(list: seq<string>, entries: seq<string>): seq<string>
    decreases |entries|
  {
    if entries == [] then list
    else Extend(if entries[0] in list then list else list + [entries[0]], entries[1..])
  }

  lemma {:induction false} AddEntriesRefines(list: seq<string>, all: seq<string>, entries: seq<string>)
    requires list != [] && Entries(entries) && Apart(all)
    requires (forall e <- list :: e in all) && (forall e <- entries :: e in all)
    ensures AddEntries(Join(list, ','), entries) == Join(Extend(list, entries), ',')
    decreases |entries|
  {
    if entries != [] {
      var e := entries[0];
      FoundIffHeld(list, e);
      JoinAppend(list, [e], ',');
      AddEntriesRefines(if e in list then list else list + [e], all, entries[1..]);
    }
  }

  lemma {:induction false} ExtendMore(list: seq<string>, more: seq<string>)
    requires (forall e <- more :: e !in list) && Distinct(more)
    ensures Extend(list, more) == list + more
    decreases |more|
  {
    if more == [] {
      assert list + more == list;
    } else {
      var next := list + [more[0]];
      forall e | e in more[1..] ensures e !in next {
        assert e in more;
      }
      ExtendMore(next, more[1..]);
      assert next + more[1..] == list + more;
    }
  }

  /** Entries already held are skipped, new ones appended. */
  lemma {:induction false} ExtendHeld(list: seq<string>, held: seq<string>, more: seq<string>)
    requires (forall e <- held :: e in list) && (forall e <- more :: e !in list) && Distinct(more)
    ensures Extend(list, held + more) == list + more
    decreases |held|
  {
    if held == [] {
      assert held + more == more;
      ExtendMore(list, more);
    } else {
      assert (held + more)[1..] == held[1..] + more;
      ExtendHeld(list, held[1..], more);
    }
  }
}
