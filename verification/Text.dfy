/**
 The string operations the operator leans on (Go's strings.Split, Join, Contains, ReplaceAll)
 and the facts that let a separated string be read as the list it encodes.
 */
module Text {

  /** strings.Join with a one-character separator. */
  function Join(parts: seq<string>, sep: char): string {
    if parts == [] then ""
    else if |parts| == 1 then parts[0]
    else parts[0] + [sep] + Join(parts[1..], sep)
  }

  /** strings.Split with a one-character separator: the empty string has one empty part. */
  function Split(s: string, sep: char): (parts: seq<string>)
    ensures |parts| >= 1
    ensures forall p <- parts :: sep !in p
  {
    if s == "" then [""]
    else if s[0] == sep then [""] + Split(s[1..], sep)
    else
      var rest := Split(s[1..], sep);
      [[s[0]] + rest[0]] + rest[1..]
  }

  ghost predicate Free(parts: seq<string>, sep: char) {
    forall p <- parts :: sep !in p
  }

  lemma {:induction false} SplitCons(p: string, rest: string, sep: char)
    requires sep !in p
    ensures Split(p + [sep] + rest, sep) == [p] + Split(rest, sep)
  {
    if p == "" {
      assert "" + [sep] + rest == [sep] + rest;
    } else {
      SplitCons(p[1..], rest, sep);
      assert (p + [sep] + rest)[1..] == p[1..] + [sep] + rest;
      assert [p[0]] + p[1..] == p;
    }
  }

  lemma {:induction false} SplitOne(p: string, sep: char)
    requires sep !in p
    ensures Split(p, sep) == [p]
  {
    if p != "" {
      SplitOne(p[1..], sep);
      assert [p[0]] + p[1..] == p;
    }
  }

  /** Splitting a joined list gives the list back. */
  lemma {:induction false} SplitJoin(parts: seq<string>, sep: char)
    requires parts != [] && Free(parts, sep)
    ensures Split(Join(parts, sep), sep) == parts
  {
    if |parts| == 1 {
      SplitOne(parts[0], sep);
      assert parts == [parts[0]];
    } else {
      SplitJoin(parts[1..], sep);
      SplitCons(parts[0], Join(parts[1..], sep), sep);
      assert parts == [parts[0]] + parts[1..];
    }
  }

  lemma JoinPushChar(c: char, parts: seq<string>, sep: char)
    requires parts != []
    ensures Join([[c] + parts[0]] + parts[1..], sep) == [c] + Join(parts, sep)
  {
    var pushed := [[c] + parts[0]] + parts[1..];
    assert pushed[1..] == parts[1..];
    if |parts| > 1 {
      assert [c] + parts[0] + [sep] + Join(parts[1..], sep) == [c] + (parts[0] + [sep] + Join(parts[1..], sep));
    }
  }

  lemma JoinPushEmpty(parts: seq<string>, sep: char)
    requires parts != []
    ensures Join([""] + parts, sep) == [sep] + Join(parts, sep)
  {
    assert ([""] + parts)[1..] == parts;
    assert "" + [sep] + Join(parts, sep) == [sep] + Join(parts, sep);
  }

  /** Joining a split string gives the string back. */
  lemma {:induction false} JoinSplit(s: string, sep: char)
    ensures Join(Split(s, sep), sep) == s
  {
    if s != "" {
      JoinSplit(s[1..], sep);
      assert s == [s[0]] + s[1..];
      if s[0] == sep {
        JoinPushEmpty(Split(s[1..], sep), sep);
      } else {
        JoinPushChar(s[0], Split(s[1..], sep), sep);
      }
    }
  }

  lemma PushCharAppend(c: char, a: seq<string>, b: seq<string>)
    requires a != []
    ensures [[c] + (a + b)[0]] + (a + b)[1..] == ([[c] + a[0]] + a[1..]) + b
  {
    assert (a + b)[1..] == a[1..] + b;
  }

  /** Splitting at a separator splits both sides. */
  lemma {:induction false} SplitAppend(a: string, b: string, sep: char)
    ensures Split(a + [sep] + b, sep) == Split(a, sep) + Split(b, sep)
  {
    var s := a + [sep] + b;
    if a == "" {
      assert s == [sep] + b && s[1..] == b;
    } else {
      assert s[1..] == a[1..] + [sep] + b && s[0] == a[0];
      SplitAppend(a[1..], b, sep);
      if a[0] == sep {
        assert [""] + (Split(a[1..], sep) + Split(b, sep)) == ([""] + Split(a[1..], sep)) + Split(b, sep);
      } else {
        PushCharAppend(a[0], Split(a[1..], sep), Split(b, sep));
      }
    }
  }

  lemma {:induction false} JoinAppend(a: seq<string>, b: seq<string>, sep: char)
    requires a != [] && b != []
    ensures Join(a + b, sep) == Join(a, sep) + [sep] + Join(b, sep)
  {
    if |a| == 1 {
      assert (a + b)[1..] == b;
    } else {
      JoinAppend(a[1..], b, sep);
      assert (a + b)[1..] == a[1..] + b;
      assert (a[0] + [sep] + Join(a[1..], sep)) + [sep] + Join(b, sep)
          == a[0] + [sep] + (Join(a[1..], sep) + [sep] + Join(b, sep));
    }
  }

  /** strings.Contains. */
  predicate Contains(s: string, t: string) {
    t <= s || (s != "" && Contains(s[1..], t))
  }

  /** strings.ReplaceAll for a nonempty pattern: leftmost matches, left to right. */
  function ReplaceAll(s: string, t: string, sub: string): string
    requires t != ""
  {
    if s == "" then ""
    else if t <= s then sub + ReplaceAll(s[|t|..], t, sub)
    else [s[0]] + ReplaceAll(s[1..], t, sub)
  }

  lemma {:induction false} ContainsAt(s: string, t: string, i: nat)
    requires i + |t| <= |s| && s[i..i + |t|] == t
    ensures Contains(s, t)
  {
    if i > 0 {
      assert s[1..][i - 1..i - 1 + |t|] == s[i..i + |t|];
      ContainsAt(s[1..], t, i - 1);
    }
  }

  lemma {:induction false} ContainsSelf(s: string)
    ensures Contains(s, s)
  {
    ContainsAt(s, s, 0);
  }

  lemma {:induction false} ContainsLength(s: string, t: string)
    requires Contains(s, t)
    ensures |t| <= |s|
  {
    if !(t <= s) {
      ContainsLength(s[1..], t);
    }
  }

  /** A separator-free pattern never matches across a separator. */
  lemma {:induction false} ContainsAcross(a: string, b: string, t: string, sep: char)
    requires sep !in t && t != ""
    ensures Contains(a + [sep] + b, t) <==> Contains(a, t) || Contains(b, t)
  {
    var s := a + [sep] + b;
    if a == "" {
      assert s == [sep] + b;
      assert s[1..] == b;
      PrefixAcross(a, b, t, sep);
    } else {
      assert s[1..] == a[1..] + [sep] + b;
      ContainsAcross(a[1..], b, t, sep);
      PrefixAcross(a, b, t, sep);
    }
  }

  lemma PrefixAcross(a: string, b: string, t: string, sep: char)
    requires sep !in t
    ensures t <= a + [sep] + b <==> t <= a
  {
    var s := a + [sep] + b;
    assert s[|a|] == sep;
    if t <= s {
      assert forall i :: 0 <= i < |t| ==> s[i] in t;
      assert |t| <= |a|;
      assert s[..|t|] == a[..|t|];
    }
  }

  /** A separator-free pattern occurs in a joined list exactly when it occurs in an entry. */
  lemma {:induction false} ContainsJoin(parts: seq<string>, t: string, sep: char)
    requires sep !in t && t != ""
    ensures Contains(Join(parts, sep), t) <==> exists p <- parts :: Contains(p, t)
  {
    if |parts| == 1 {
      assert parts[0] in parts;
    } else if |parts| > 1 {
      ContainsJoin(parts[1..], t, sep);
      ContainsAcross(parts[0], Join(parts[1..], sep), t, sep);
      assert parts == [parts[0]] + parts[1..];
    }
  }

  lemma {:induction false} ReplaceAbsent(s: string, t: string, sub: string)
    requires t != "" && !Contains(s, t)
    ensures ReplaceAll(s, t, sub) == s
  {
    if s != "" {
      ReplaceAbsent(s[1..], t, sub);
    }
  }

  lemma ReplaceSelf(t: string, sub: string)
    requires t != ""
    ensures ReplaceAll(t, t, sub) == sub
  {
    assert t[|t|..] == "";
    assert ReplaceAll(t, t, sub) == sub + ReplaceAll("", t, sub);
  }

  lemma {:induction false} ReplaceAcross(a: string, b: string, t: string, sub: string, sep: char)
    requires sep !in t && t != ""
    ensures ReplaceAll(a + [sep] + b, t, sub) == ReplaceAll(a, t, sub) + [sep] + ReplaceAll(b, t, sub)
    decreases |a|
  {
    var s := a + [sep] + b;
    PrefixAcross(a, b, t, sep);
    if a == "" {
      assert s == [sep] + b && s[1..] == b;
      assert !(t <= s);
      assert ReplaceAll(s, t, sub) == [sep] + ReplaceAll(b, t, sub);
    } else if t <= a {
      assert s[|t|..] == a[|t|..] + [sep] + b;
      ReplaceAcross(a[|t|..], b, t, sub, sep);
    } else {
      assert s[1..] == a[1..] + [sep] + b;
      ReplaceAcross(a[1..], b, t, sub, sep);
    }
  }

  function ReplaceEach(parts: seq<string>, t: string, sub: string): (r: seq<string>)
    requires t != ""
    ensures |r| == |parts|
    ensures forall i :: 0 <= i < |parts| ==> r[i] == ReplaceAll(parts[i], t, sub)
  {
    if parts == [] then [] else [ReplaceAll(parts[0], t, sub)] + ReplaceEach(parts[1..], t, sub)
  }

  /** Replacing in a joined list is replacing in each entry. */
  lemma {:induction false} ReplaceJoin(parts: seq<string>, t: string, sub: string, sep: char)
    requires sep !in t && t != ""
    ensures ReplaceAll(Join(parts, sep), t, sub) == Join(ReplaceEach(parts, t, sub), sep)
  {
    if |parts| > 1 {
      ReplaceAcross(parts[0], Join(parts[1..], sep), t, sub, sep);
      ReplaceJoin(parts[1..], t, sub, sep);
      var r := ReplaceEach(parts, t, sub);
      assert r[1..] == ReplaceEach(parts[1..], t, sub);
    }
  }

  /** The order of Go's strings. */
  predicate LexLess(a: string, b: string) {
    b != "" && (a == "" || a[0] < b[0] || (a[0] == b[0] && LexLess(a[1..], b[1..])))
  }

  lemma {:induction false} LexOrder(a: string, b: string)
    ensures LexLess(a, b) ==> !LexLess(b, a) && a != b
    ensures LexLess(a, b) || a == b || LexLess(b, a)
  {
    if a != "" && b != "" && a[0] == b[0] {
      LexOrder(a[1..], b[1..]);
      assert a == [a[0]] + a[1..] && b == [b[0]] + b[1..];
    }
  }

  lemma {:induction false} LexTransitive(a: string, b: string, c: string)
    requires LexLess(a, b) && LexLess(b, c)
    ensures LexLess(a, c)
  {
    if a != "" && a[0] == b[0] == c[0] {
      LexTransitive(a[1..], b[1..], c[1..]);
    }
  }

  function InsertString(x: string, s: seq<string>): (r: seq<string>)
    ensures multiset(r) == multiset([x] + s)
  {
    if s == [] || !LexLess(s[0], x) then [x] + s
    else
      assert s == [s[0]] + s[1..];
      [s[0]] + InsertString(x, s[1..])
  }

  /** sort.Strings. */
  function SortStrings(s: seq<string>): (r: seq<string>)
    ensures multiset(r) == multiset(s)
  {
    if s == [] then []
    else
      assert s == [s[0]] + s[1..];
      InsertString(s[0], SortStrings(s[1..]))
  }
}
