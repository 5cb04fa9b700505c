/** The peers' names, and why none of a StatefulSet's is part of another. */
module PeerNames {
  import opened Decimal
  import opened Text
  import opened PeerLists

  /** GetServiceFQDN, for a cluster domain. */
  function ServiceFQDN(namespace: string, name: string, domain: string): string {
    name + "." + namespace + ".svc." + domain
  }

  /** GetSplunkStatefulsetURL for pod `n`. */
  function StatefulsetURL(namespace: string, kind: string, identifier: string, domain: string, n: nat,
                          hostnameOnly: bool): string
  {
    var podName := "splunk-" + identifier + "-" + kind + "-" + Itoa(n);
    if hostnameOnly then podName
    else ServiceFQDN(namespace, podName + "." + ("splunk-" + identifier + "-" + kind + "-headless"), domain)
  }

  /** The peers GetSplunkStatefulsetUrls joins. */
  function Urls(namespace: string, kind: string, identifier: string, domain: string, replicas: nat,
                hostnameOnly: bool): (urls: seq<string>)
    ensures |urls| == replicas
    ensures forall n :: 0 <= n < replicas ==>
      urls[n] == StatefulsetURL(namespace, kind, identifier, domain, n, hostnameOnly)
  {
    if replicas == 0 then []
    else Urls(namespace, kind, identifier, domain, replicas - 1, hostnameOnly)
         + [StatefulsetURL(namespace, kind, identifier, domain, replicas - 1, hostnameOnly)]
  }

  /** GetSplunkStatefulsetUrls: fills a slice of names, and joins it. */
  method GetSplunkStatefulsetUrls(namespace: string, kind: string, identifier: string, domain: string, replicas: nat,
                                  hostnameOnly: bool)
    returns (value: string)
    ensures value == Join(Urls(namespace, kind, identifier, domain, replicas, hostnameOnly), ',')
  {
    var urls := new string[replicas];
    for i := 0 to replicas
      invariant forall n :: 0 <= n < i ==>
        urls[n] == StatefulsetURL(namespace, kind, identifier, domain, n, hostnameOnly)
    {
      urls[i] := StatefulsetURL(namespace, kind, identifier, domain, i, hostnameOnly);
    }
    assert urls[..] == Urls(namespace, kind, identifier, domain, replicas, hostnameOnly);
    return Join(urls[..], ',');
  }

  /** The characters of a text that are no digits. */
  function NonDigits(s: string): nat {
    if s == "" then 0 else (if IsDigit(s[0]) then 0 else 1) + NonDigits(s[1..])
  }

  lemma {:induction false} NonDigitsAppend(a: string, b: string)
    ensures NonDigits(a + b) == NonDigits(a) + NonDigits(b)
  {
    if a == "" {
      assert a + b == b;
    } else {
      assert (a + b)[1..] == a[1..] + b;
      NonDigitsAppend(a[1..], b);
    }
  }

  lemma {:induction false} DigitsHaveNone(s: string)
    requires forall c <- s :: IsDigit(c)
    ensures NonDigits(s) == 0
  {
    if s != "" {
      assert s[0] in s;
      DigitsHaveNone(s[1..]);
    }
  }

  lemma {:induction false} OnlyDigits(s: string)
    requires NonDigits(s) == 0
    ensures forall i :: 0 <= i < |s| ==> IsDigit(s[i])
  {
    if s != "" {
      OnlyDigits(s[1..]);
      assert forall i :: 0 < i < |s| ==> s[i] == s[1..][i - 1];
    }
  }

  lemma NothingBefore(x: string, rest: string)
    requires (forall i :: 0 <= i < |x| ==> IsDigit(x[i])) && x + rest != "" && !IsDigit((x + rest)[0])
    ensures x == ""
  {
  }

  /** A text that contains another is that text with something before and after it. */
  lemma {:induction false} ContainsSplits(s: string, t: string) returns (x: string, y: string)
    requires Contains(s, t)
    ensures s == x + t + y
  {
    if t <= s {
      x, y := "", s[|t|..];
    } else {
      var x1, y1 := ContainsSplits(s[1..], t);
      x, y := [s[0]] + x1, y1;
      assert s == [s[0]] + s[1..];
      assert [s[0]] + (x1 + t + y1) == x + t + y;
    }
  }

  lemma SameRest(a: string, u: string, v: string)
    requires a + u == a + v
    ensures u == v
  {
    assert (a + u)[|a|..] == u && (a + v)[|a|..] == v;
  }

  lemma NothingAhead(x: string, t: string, y: string)
    requires NonDigits(x + t + y) == NonDigits(t) && x + t + y != "" && !IsDigit((x + t + y)[0])
    ensures x == ""
  {
    NonDigitsAppend(x + t, y);
    NonDigitsAppend(x, t);
    OnlyDigits(x);
    assert x + t + y == x + (t + y);
    NothingBefore(x, t + y);
  }

  lemma SameBeginning(a: string, p: string, q: string, b: string, y: string)
    requires a + p + b == a + q + b + y
    ensures p + b == q + b + y
  {
    assert a + p + b == a + (p + b) && a + q + b + y == a + (q + b + y);
    SameRest(a, p + b, q + b + y);
  }

  /** Of two numbered names, one contains the other only as its beginning. */
  lemma NumberedNameBegins(a: string, b: string, m: nat, n: nat) returns (y: string)
    requires a != "" && !IsDigit(a[0])
    requires Contains(a + Itoa(m) + b, a + Itoa(n) + b)
    ensures Itoa(m) + b == Itoa(n) + b + y
  {
    var p, q := Itoa(m), Itoa(n);
    var x, rest := ContainsSplits(a + p + b, a + q + b);
    CountName(a, b, m);
    CountName(a, b, n);
    NothingAhead(x, a + q + b, rest);
    y := rest;
    assert x + (a + q + b) == a + q + b;
    SameBeginning(a, p, q, b, y);
  }

  /** Where the digits end, a number ends. */
  lemma DigitsEnd(p: string, q: string, b: string, y: string)
    requires (forall c <- p :: IsDigit(c)) && (forall c <- q :: IsDigit(c)) && b != "" && !IsDigit(b[0])
    requires p + b == q + b + y
    ensures p == q
  {
    var s, t := p + b, q + b + y;
    assert s[|p|] == b[0] && t[|q|] == b[0];
    assert p == s[..|p|] && q == t[..|q|];
  }

  /** Numbered names with the same text around the number. */
  lemma NumberedNamesAreApart(a: string, b: string, m: nat, n: nat)
    requires a != "" && !IsDigit(a[0])
    requires Contains(a + Itoa(m) + b, a + Itoa(n) + b)
    requires (b != "" && !IsDigit(b[0])) || (m < 10 && n < 10 && b == "")
    ensures m == n
  {
    var y := NumberedNameBegins(a, b, m, n);
    if b != "" {
      DigitsEnd(Itoa(m), Itoa(n), b, y);
    } else {
      assert Itoa(m) + b == Itoa(m) && Itoa(n) + b == Itoa(n);
      assert |Itoa(m)| == |Itoa(n)| == 1;
      assert Itoa(m)[0] == Itoa(n)[0];
    }
    ItoaInjective(m, n);
  }

  lemma CountName(a: string, b: string, n: nat)
    ensures NonDigits(a + Itoa(n) + b) == NonDigits(a) + NonDigits(b)
  {
    NonDigitsAppend(a + Itoa(n), b);
    NonDigitsAppend(a, Itoa(n));
    DigitsHaveNone(Itoa(n));
  }

  /**
   A StatefulSet's peers are proper entries, all different, and all name their resource. None is part of
   another exactly when they are full names, or host names of at most ten pods.
   */
  lemma {:induction false} UrlsAreApart(namespace: string, kind: string, identifier: string, domain: string,
                                        replicas: nat, hostnameOnly: bool)
    requires ',' !in namespace && ',' !in kind && ',' !in identifier && ',' !in domain
    ensures var urls := Urls(namespace, kind, identifier, domain, replicas, hostnameOnly);
      && Entries(urls) && Distinct(urls)
      && (forall url <- urls :: Contains(url, identifier))
      && (Apart(urls) <==> !hostnameOnly || replicas <= 10)
  {
    var urls := Urls(namespace, kind, identifier, domain, replicas, hostnameOnly);
    forall n: nat | n < replicas ensures urls[n] != "" && ',' !in urls[n] && Contains(urls[n], identifier) {
      UrlIsProper(namespace, kind, identifier, domain, n, hostnameOnly);
    }
    forall m: nat, n: nat | m < n < replicas ensures urls[m] != urls[n] {
      UrlsAreDistinct(namespace, kind, identifier, domain, m, n, hostnameOnly);
    }
    if hostnameOnly && replicas > 10 {
      TenContainsOne(namespace, kind, identifier, domain);
      UrlsAreDistinct(namespace, kind, identifier, domain, 1, 10, true);
      assert urls[10] in urls && urls[1] in urls;
    } else {
      forall m: nat, n: nat | m < replicas && n < replicas && Contains(urls[m], urls[n]) ensures m == n {
        UrlsDiffer(namespace, kind, identifier, domain, m, n, hostnameOnly);
      }
    }
  }

  lemma UrlIsProper(namespace: string, kind: string, identifier: string, domain: string, n: nat, hostnameOnly: bool)
    requires ',' !in namespace && ',' !in kind && ',' !in identifier && ',' !in domain
    ensures var url := StatefulsetURL(namespace, kind, identifier, domain, n, hostnameOnly);
      url != "" && ',' !in url && Contains(url, identifier)
  {
    var url := StatefulsetURL(namespace, kind, identifier, domain, n, hostnameOnly);
    assert url[7..7 + |identifier|] == identifier;
    ContainsAt(url, identifier, 7);
  }

  function Ahead(kind: string, identifier: string): string {
    "splunk-" + identifier + "-" + kind + "-"
  }

  /** What follows the number. */
  function Behind(namespace: string, kind: string, identifier: string, domain: string, hostnameOnly: bool): string {
    if hostnameOnly then ""
    else "." + ("splunk-" + identifier + "-" + kind + "-headless") + "." + namespace + ".svc." + domain
  }

  lemma UrlShape(namespace: string, kind: string, identifier: string, domain: string, n: nat, hostnameOnly: bool)
    ensures StatefulsetURL(namespace, kind, identifier, domain, n, hostnameOnly)
      == Ahead(kind, identifier) + Itoa(n) + Behind(namespace, kind, identifier, domain, hostnameOnly)
  {
  }

  lemma UrlsDiffer(namespace: string, kind: string, identifier: string, domain: string, m: nat, n: nat,
                   hostnameOnly: bool)
    requires Contains(StatefulsetURL(namespace, kind, identifier, domain, m, hostnameOnly),
                      StatefulsetURL(namespace, kind, identifier, domain, n, hostnameOnly))
    requires !hostnameOnly || (m < 10 && n < 10)
    ensures m == n
  {
    UrlShape(namespace, kind, identifier, domain, m, hostnameOnly);
    UrlShape(namespace, kind, identifier, domain, n, hostnameOnly);
    assert Ahead(kind, identifier)[0] == 's';
    NumberedNamesAreApart(Ahead(kind, identifier), Behind(namespace, kind, identifier, domain, hostnameOnly), m, n);
  }

  lemma UrlsAreDistinct(namespace: string, kind: string, identifier: string, domain: string, m: nat, n: nat,
                        hostnameOnly: bool)
    requires m != n
    ensures StatefulsetURL(namespace, kind, identifier, domain, m, hostnameOnly)
      != StatefulsetURL(namespace, kind, identifier, domain, n, hostnameOnly)
  {
    var a, b := Ahead(kind, identifier), Behind(namespace, kind, identifier, domain, hostnameOnly);
    UrlShape(namespace, kind, identifier, domain, m, hostnameOnly);
    UrlShape(namespace, kind, identifier, domain, n, hostnameOnly);
    if a + Itoa(m) + b == a + Itoa(n) + b {
      MiddleAgrees(a, Itoa(m), Itoa(n), b);
      ItoaInjective(m, n);
    }
  }

  lemma MiddleAgrees(a: string, p: string, q: string, b: string)
    requires a + p + b == a + q + b
    ensures p == q
  {
    var s, t := a + p + b, a + q + b;
    assert |p| == |q|;
    assert p == s[|a|..|a| + |p|] && q == t[|a|..|a| + |q|];
  }

  lemma TenContainsOne(namespace: string, kind: string, identifier: string, domain: string)
    ensures Contains(StatefulsetURL(namespace, kind, identifier, domain, 10, true),
                     StatefulsetURL(namespace, kind, identifier, domain, 1, true))
  {
    var ten := StatefulsetURL(namespace, kind, identifier, domain, 10, true);
    var one := StatefulsetURL(namespace, kind, identifier, domain, 1, true);
    assert Itoa(10) == Itoa(1) + [DigitChar(0)];
    assert ten == one + [DigitChar(0)];
    ContainsAt(ten, one, 0);
  }
}
