/**
 What a failed read of an existing namespace secret leads to. The caller gets tokens generated on the spot
 and stored nowhere, with an empty resource version, and cannot tell them from the namespace's own.
 */
module MisreadSecret {
  import opened Wrappers
  import opened Decimal
  import opened Names
  import opened VersionedSecrets
  import opened SecretHistory
  import NamespaceSecret
  import Rekey
  import RekeyRuns
  import RekeyLimits

  /** What a call returns when the read fails, and creating what exists passes for success. */
  function Misread(tokens: NamespaceSecret.Tokens, generated: string -> string): NamespaceSecret.Tokens {
    var applied := NamespaceSecret.Apply(Some(tokens), false, Acked, generated);
    applied.result.value
  }

  function Always(): nat -> Fate {
    k => Acked
  }

  /** A fetch by a caller that holds `data` for the namespace's; the namespace's own stays as it is. */
  function FetchWith(h: History, identifier: string, data: string, latest: Option<Item>): History {
    Next(h.(data := data), identifier, Fetch(latest, Always())).(data := h.data)
  }

  /** With all calls acknowledged a fetch of other data makes the next version. */
  lemma FetchMakesNext(h: History, identifier: string, data: string, latest: Option<Item>)
    requires Sound(h, identifier) && LatestIn(h.w.secrets, identifier, latest) && latest.Some?
    requires VersionOf(latest.value.name, identifier) < MAX_INT64 && latest.value.data != data
    ensures var t, name := FetchWith(h, identifier, data, latest), NextName(identifier, latest);
      && name !in h.w.secrets && Qualifies(name, identifier)
      && VersionOf(name, identifier) == VersionOf(latest.value.name, identifier) + 1
      && t.w.secrets == h.w.secrets[name := Secret(data, true)]
      && t.created == h.created + [VersionOf(name, identifier)] && t.data == h.data && Sound(t, identifier)
  {
    FetchIsSound(h.(data := data), identifier, Fetch(latest, Always()));
    NextIsNew(h.w.secrets, identifier, latest);
    FetchEffect(h.w, identifier, data, latest, Always());
  }

  /** The version just made is the latest. */
  lemma NextIsLatest(secrets: map<string, Secret>, identifier: string, latest: Item, name: string, data: string,
                     newest: Option<Item>)
    requires NoStrays(secrets, identifier) && LatestIn(secrets, identifier, Some(latest))
    requires Qualifies(name, identifier) && VersionOf(name, identifier) > VersionOf(latest.name, identifier)
    requires LatestIn(secrets[name := Secret(data, true)], identifier, newest)
    ensures newest == Some(Item(name, data))
  {
    var after := secrets[name := Secret(data, true)];
    assert after[name].labelled;
  }

  /**
   A fetch over a namespace secret that is complete and of which the latest version holds the data: read as
   it is, nothing is made. Misread, it costs two versions. One is made of tokens that are stored nowhere; and
   the next fetch that reads the secret makes another, of the same data as before.
   */
  lemma MisreadMakesTwo(h: History, identifier: string, tokens: NamespaceSecret.Tokens, generated: string -> string,
                        readable: NamespaceSecret.Tokens -> string, latest: Item, newest: Option<Item>)
    requires Sound(h, identifier) && LatestIn(h.w.secrets, identifier, Some(latest))
    requires h.data == readable(tokens) == latest.data && readable(Misread(tokens, generated)) != h.data
    requires VersionOf(latest.name, identifier) + 1 < MAX_INT64
    ensures FetchWith(h, identifier, h.data, Some(latest)) == h
    ensures var v, made := VersionOf(latest.name, identifier), readable(Misread(tokens, generated));
      var t := FetchWith(h, identifier, made, Some(latest));
      LatestIn(t.w.secrets, identifier, newest) ==>
        var u := FetchWith(t, identifier, h.data, newest);
        && newest.Some? && newest.value.data == made && VersionOf(newest.value.name, identifier) == v + 1
        && u.created == h.created + [v + 1, v + 2]
        && |u.w.secrets| == |h.w.secrets| + 2
  {
    var made := readable(Misread(tokens, generated));
    var t, name := FetchWith(h, identifier, made, Some(latest)), NextName(identifier, Some(latest));
    FetchMakesNext(h, identifier, made, Some(latest));
    if LatestIn(t.w.secrets, identifier, newest) {
      NextIsLatest(h.w.secrets, identifier, latest, name, made, newest);
      FetchMakesNext(t, identifier, h.data, newest);
      assert (h.created + [VersionOf(name, identifier)]) + [VersionOf(name, identifier) + 1]
          == h.created + [VersionOf(name, identifier), VersionOf(name, identifier) + 1];
    }
  }

  /** The cluster as a re-key sees it that misread the namespace secret: another key, and no version. */
  function Mistaken(w: Rekey.World, generated: string): Rekey.World {
    w.(key := generated, version := "")
  }

  /**
   An indexer cluster in which nothing has changed: a re-key does nothing. If it misreads the namespace secret,
   it sets the key of every indexer to one that is stored nowhere, and restarts them all.
   */
  lemma MisreadRestartsAll(st: Rekey.Status, w: Rekey.World, replicas: nat, order: seq<string>, generated: string)
    requires st.changed == [] && st.passwords == map[] && st.version != "" && st.version == w.version
    requires w.restarted == multiset{}
    requires forall i :: 0 <= i < replicas ==> Rekey.Readable(w, i) && w.secrets[w.mounted[i]] != generated
    ensures Rekey.Apply(st, w, replicas, order, Always()).w.restarted == multiset{}
    ensures var done := Rekey.Apply(st, Mistaken(w, generated), replicas, order, Always());
      forall i: nat :: i < replicas ==> done.w.restarted[i] == 1
  {
    var wrong := Mistaken(w, generated);
    var w1 := Rekey.Do(wrong, Rekey.ReadNamespaceSecret, Acked);
    forall i | 0 <= i < replicas ensures Rekey.Readable(w1, i) && Rekey.Stale(w1, i) {
      assert Rekey.Readable(w, i);
    }
    RekeyLimits.FirstPass(st, w1, 0, replicas, Always());
    var pods := Rekey.VisitPods(st, w1, 0, replicas, Always());
    RekeyLimits.WritesKeepRestarts(pods.st, pods.w, order, Always());
    RekeyLimits.SameKeysSameStale(w1, pods.w, 0);
  }
}
