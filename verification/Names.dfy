/** The names the operator derives: pods, volume claims and versioned secrets. */
module Names {
  import opened Wrappers
  import opened Decimal

  function PodName(statefulSet: string, n: nat): string {
    statefulSet + "-" + Itoa(n)
  }

  function ClaimName(template: string, statefulSet: string, n: nat): string {
    template + "-" + PodName(statefulSet, n)
  }

  const MARKER := "-secret-v"

  function VersionedSecretName(identifier: string, version: string): string {
    identifier + MARKER + version
  }

  datatype SecretVersion =
    | Version(version: int)
    | NotAnInteger
    | NotPositive
    | NoMatch

  /** Recovers the version from a secret's name, or says why the name does not qualify. */
  function GetVersionedSecretVersion(secretName: string, identifier: string): (r: SecretVersion)
    ensures r.Version? ==> 0 < r.version <= MAX_INT64
  {
    var prefix := VersionedSecretName(identifier, "");
    if !(prefix <= secretName) then NoMatch
    else match Atoi(secretName[|prefix|..])
      case None => NotAnInteger
      case Some(v) => if v <= 0 then NotPositive else Version(v)
  }

  /** Every version the operator writes into a name is the version it reads back. */
  lemma VersionRoundTrip(identifier: string, v: nat)
    requires 0 < v <= MAX_INT64
    ensures GetVersionedSecretVersion(VersionedSecretName(identifier, Itoa(v)), identifier) == Version(v)
  {
    var prefix := VersionedSecretName(identifier, "");
    var name := VersionedSecretName(identifier, Itoa(v));
    assert name == prefix + Itoa(v);
    assert name[|prefix|..] == Itoa(v);
    AtoiItoa(v);
  }

  lemma VersionedNameInjective(identifier: string, v: nat, u: nat)
    requires VersionedSecretName(identifier, Itoa(v)) == VersionedSecretName(identifier, Itoa(u))
    ensures v == u
  {
    var prefix := identifier + MARKER;
    assert (prefix + Itoa(v))[|prefix|..] == Itoa(v);
    assert (prefix + Itoa(u))[|prefix|..] == Itoa(u);
    ItoaInjective(v, u);
  }

  /** The accepted suffix reaches back no further than the marker's 'v'. */
  lemma SuffixIsNumeric(secretName: string, identifier: string, i: nat)
    requires GetVersionedSecretVersion(secretName, identifier).Version?
    requires |identifier| + |MARKER| <= i < |secretName|
    ensures IsDigit(secretName[i]) || secretName[i] == '+' || secretName[i] == '-'
  {
    var prefix := VersionedSecretName(identifier, "");
    assert prefix == identifier + MARKER;
    AtoiAlphabet(secretName[|prefix|..]);
    assert secretName[i] == secretName[|prefix|..][i - |prefix|];
  }

  /** No secret is taken for a version of two different owners. */
  lemma VersionIsolation(secretName: string, a: string, b: string)
    requires GetVersionedSecretVersion(secretName, a).Version?
    requires GetVersionedSecretVersion(secretName, b).Version?
    ensures a == b
  {
    var pa := VersionedSecretName(a, "");
    var pb := VersionedSecretName(b, "");
    assert pa == a + MARKER && pb == b + MARKER;
    LastOfMarker(secretName, a);
    LastOfMarker(secretName, b);
    if |a| < |b| {
      SuffixIsNumeric(secretName, a, |pb| - 1);
      assert false;
    } else if |b| < |a| {
      SuffixIsNumeric(secretName, b, |pa| - 1);
      assert false;
    }
    assert a == secretName[..|a|] && b == secretName[..|b|];
  }

  lemma LastOfMarker(secretName: string, identifier: string)
    requires GetVersionedSecretVersion(secretName, identifier).Version?
    ensures |identifier| + |MARKER| <= |secretName|
    ensures secretName[|identifier| + |MARKER| - 1] == 'v'
    ensures secretName[..|identifier|] == identifier
  {
    var p := VersionedSecretName(identifier, "");
    assert p == identifier + MARKER;
    assert secretName[..|p|] == p;
    assert secretName[..|identifier|] == p[..|identifier|];
  }

  lemma {:induction false} SplitAtLastDash(a: string, x: string, b: string, y: string)
    requires a + "-" + x == b + "-" + y && '-' !in x && '-' !in y
    ensures a == b && x == y
  {
    var s := a + "-" + x;
    var t := b + "-" + y;
    assert s[|a|] == '-' && t[|b|] == '-';
    assert |s| == |t|;
    assert forall i :: |a| < i < |s| ==> s[i] in x;
    assert forall i :: |b| < i < |t| ==> t[i] in y;
    assert |a| == |b|;
    assert a == s[..|a|] && b == t[..|b|];
    assert x == s[|a| + 1..] && y == t[|b| + 1..];
  }

  lemma PodNameInjective(statefulSet: string, n: nat, m: nat)
    requires PodName(statefulSet, n) == PodName(statefulSet, m)
    ensures n == m
  {
    SplitAtLastDash(statefulSet, Itoa(n), statefulSet, Itoa(m));
    ItoaInjective(n, m);
  }

  /** One claim name, one template and one ordinal. */
  lemma ClaimNameInjective(t: string, u: string, statefulSet: string, n: nat, m: nat)
    requires ClaimName(t, statefulSet, n) == ClaimName(u, statefulSet, m)
    ensures t == u && n == m
  {
    assert ClaimName(t, statefulSet, n) == (t + "-" + statefulSet) + "-" + Itoa(n);
    assert ClaimName(u, statefulSet, m) == (u + "-" + statefulSet) + "-" + Itoa(m);
    SplitAtLastDash(t + "-" + statefulSet, Itoa(n), u + "-" + statefulSet, Itoa(m));
    ItoaInjective(n, m);
    assert (t + "-" + statefulSet)[..|t|] == t;
    assert (u + "-" + statefulSet)[..|u|] == u;
  }
}
