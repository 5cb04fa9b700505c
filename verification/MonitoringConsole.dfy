/**
 The monitoring console's ConfigMap: each variable holds comma-joined peers of many custom resources,
 and is edited by splitting, searching and replacing text.
 */
module MonitoringConsole {
  import opened Text

  datatype EnvVar = EnvVar(name: string, value: string)

  /** A missing variable reads as the empty string. */
  function Read(data: map<string, string>, name: string): string {
    if name in data then data[name] else ""
  }

  function Stored(data: map<string, string>, name: string, s: string): map<string, string> {
    if s == "" then data - {name} else data[name := s]
  }

  /** Drops a comma at either end, and collapses double commas. */
  function Tidy(s: string): string {
    var s1 := if "," <= s then s[1..] else s;
    var s2 := if s1 != "" && s1[|s1| - 1] == ',' then s1[..|s1| - 1] else s1;
    if Contains(s2, ",,") then ReplaceAll(s2, ",,", ",") else s2
  }

  /** An entry with the resource's name in it that the new value does not have. */
  predicate Doomed(crName: string, value: string, entry: string) {
    Contains(entry, crName) && !Contains(value, entry)
  }

  function DeleteOne(s: string, crName: string, value: string, entry: string): string
    requires crName != ""
  {
    if Doomed(crName, value, entry) then
      ContainsLength(entry, crName);
      Tidy(ReplaceAll(s, entry, ""))
    else Tidy(s)
  }

  function DeleteListed(s: string, crName: string, value: string, entries: seq<string>): string
    requires crName != ""
    decreases |entries|
  {
    if entries == [] then s
    else DeleteListed(DeleteOne(s, crName, value, entries[0]), crName, value, entries[1..])
  }

  function DeleteVar(s: string, crName: string, value: string): string
    requires crName != ""
  {
    DeleteListed(s, crName, value, SortStrings(Split(s, ',')))
  }

  function Delete(data: map<string, string>, crName: string, urls: seq<EnvVar>): map<string, string>
    requires crName != ""
    decreases |urls|
  {
    if urls == [] then data
    else
      var s := DeleteVar(Read(data, urls[0].name), crName, urls[0].value);
      Delete(Stored(data, urls[0].name, s), crName, urls[1..])
  }

  /** One step of deleting the whole resource: its value is cut out as one text; the site goes in any case. */
  function RemoveOne(s: string, name: string, crName: string, value: string, entry: string): string {
    if name == SITE then ""
    else Tidy(if Contains(entry, crName) && value != "" then ReplaceAll(s, value, "") else s)
  }

  const SITE := "SPLUNK_SITE"

  function RemoveListed(s: string, name: string, crName: string, value: string, entries: seq<string>): string
    decreases |entries|
  {
    if entries == [] then s
    else RemoveListed(RemoveOne(s, name, crName, value, entries[0]), name, crName, value, entries[1..])
  }

  function RemoveVar(s: string, name: string, crName: string, value: string): string {
    RemoveListed(s, name, crName, value, SortStrings(Split(s, ',')))
  }

  function Remove(data: map<string, string>, crName: string, urls: seq<EnvVar>): map<string, string>
    decreases |urls|
  {
    if urls == [] then data
    else
      var s := RemoveVar(Read(data, urls[0].name), urls[0].name, crName, urls[0].value);
      Remove(Stored(data, urls[0].name, s), crName, urls[1..])
  }

  /** The entries with the resource's name in them, joined last to first. */
  function OwnText(entries: seq<string>, crName: string): string {
    if entries == [] then ""
    else
      var earlier := OwnText(entries[..|entries| - 1], crName);
      var entry := entries[|entries| - 1];
      if !Contains(entry, crName) then earlier
      else if earlier == "" then entry
      else entry + "," + earlier
  }

  function AddEntries(s: string, entries: seq<string>): string
    decreases |entries|
  {
    if entries == [] then s
    else AddEntries(if Contains(s, entries[0]) then s else s + "," + entries[0], entries[1..])
  }

  /** AddURLsConfigMap from variable `k` on. */
  function Add(data: map<string, string>, crName: string, urls: seq<EnvVar>, k: nat): map<string, string>
    requires crName != "" && k <= |urls|
    decreases |urls| - k
  {
    if k == |urls| then data
    else
      var url := urls[k];
      if url.name !in data then Add(data[url.name := url.value], crName, urls, k + 1)
      else
        var own := |OwnText(Split(data[url.name], ','), crName)|;
        if own == |url.value| then data
        else if own < |url.value| then
          Add(data[url.name := AddEntries(data[url.name], Split(url.value, ','))], crName, urls, k + 1)
        else Add(Delete(data, crName, urls), crName, urls, k + 1)
  }

  lemma StoredOver(data: map<string, string>, name: string, s: string, t: string)
    ensures Stored(Stored(data, name, s), name, t) == Stored(data, name, t)
    ensures Read(Stored(data, name, t), name) == t
  {
  }

  class ConfigMap {
    var data: map<string, string>

    constructor (data: map<string, string>)
      ensures this.data == data
    {
      this.data := data;
    }

    method AddURLsConfigMap(crName: string, newURLs: seq<EnvVar>)
      requires crName != ""
      modifies this
      ensures data == Add(old(data), crName, newURLs, 0)
    {
      var k := 0;
      while k < |newURLs|
        invariant 0 <= k <= |newURLs|
        invariant Add(old(data), crName, newURLs, 0) == Add(data, crName, newURLs, k)
      {
        var url := newURLs[k];
        if url.name !in data {
          data := data[url.name := url.value];
        } else {
          var crURLs := CollectOwn(Split(data[url.name], ','), crName);
          if |crURLs| == |url.value| {
            return;
          } else if |crURLs| < |url.value| {
            AppendMissing(url.name, Split(url.value, ','));
          } else {
            DeleteURLsConfigMap(crName, newURLs, false);
          }
        }
        k := k + 1;
      }
    }

    method CollectOwn(currentURLs: seq<string>, crName: string) returns (crURLs: string)
      ensures crURLs == OwnText(currentURLs, crName)
    {
      crURLs := "";
      for i := 0 to |currentURLs|
        invariant crURLs == OwnText(currentURLs[..i], crName)
      {
        var curr := currentURLs[i];
        assert currentURLs[..i + 1][..i] == currentURLs[..i];
        if Contains(curr, crName) {
          if crURLs == "" {
            crURLs := curr;
          } else {
            crURLs := curr + "," + crURLs;
          }
        }
      }
      assert currentURLs[..|currentURLs|] == currentURLs;
    }

    method AppendMissing(name: string, newInsURLs: seq<string>)
      requires name in data
      modifies this
      ensures data == old(data)[name := AddEntries(old(data)[name], newInsURLs)]
    {
      for i := 0 to |newInsURLs|
        invariant name in data && data == old(data)[name := data[name]]
        invariant AddEntries(old(data)[name], newInsURLs) == AddEntries(data[name], newInsURLs[i..])
      {
        if !Contains(data[name], newInsURLs[i]) {
          data := data[name := data[name] + "," + newInsURLs[i]];
        }
      }
    }

    method DeleteURLsConfigMap(crName: string, newURLs: seq<EnvVar>, deleteCR: bool)
      requires crName != ""
      modifies this
      ensures data == if deleteCR then Remove(old(data), crName, newURLs) else Delete(old(data), crName, newURLs)
    {
      for k := 0 to |newURLs|
        invariant deleteCR ==> Remove(old(data), crName, newURLs) == Remove(data, crName, newURLs[k..])
        invariant !deleteCR ==> Delete(old(data), crName, newURLs) == Delete(data, crName, newURLs[k..])
      {
        DeleteEntries(crName, newURLs[k], deleteCR);
      }
    }

    method DeleteEntries(crName: string, url: EnvVar, deleteCR: bool)
      requires crName != ""
      modifies this
      ensures data == Stored(old(data), url.name,
        if deleteCR then RemoveVar(Read(old(data), url.name), url.name, crName, url.value)
        else DeleteVar(Read(old(data), url.name), crName, url.value))
    {
      var currentURLs := SortStrings(Split(Read(data, url.name), ','));
      SortedLength(Split(Read(data, url.name), ','));
      ghost var s := Read(data, url.name);
      for i := 0 to |currentURLs|
        invariant data == if i == 0 then old(data) else Stored(old(data), url.name, s)
        invariant s == Read(data, url.name)
        invariant !deleteCR ==>
          DeleteVar(Read(old(data), url.name), crName, url.value)
          == DeleteListed(s, crName, url.value, currentURLs[i..])
        invariant deleteCR ==>
          RemoveVar(Read(old(data), url.name), url.name, crName, url.value)
          == RemoveListed(s, url.name, crName, url.value, currentURLs[i..])
      {
        ghost var next := if deleteCR then RemoveOne(s, url.name, crName, url.value, currentURLs[i])
                          else DeleteOne(s, crName, url.value, currentURLs[i]);
        StoredOver(old(data), url.name, s, next);
        DeleteEntry(crName, url, currentURLs[i], deleteCR);
        s := next;
      }
    }

    method DeleteEntry(crName: string, url: EnvVar, curr: string, deleteCR: bool)
      requires crName != ""
      modifies this
      ensures data == Stored(old(data), url.name,
        if deleteCR then RemoveOne(Read(old(data), url.name), url.name, crName, url.value, curr)
        else DeleteOne(Read(old(data), url.name), crName, url.value, curr))
    {
      var s := Read(data, url.name);
      if Contains(curr, crName) && !Contains(url.value, curr) && !deleteCR {
        ContainsLength(curr, crName);
        s := ReplaceAll(s, curr, "");
      } else if Contains(curr, crName) && deleteCR && url.value != "" {
        s := ReplaceAll(s, url.value, "");
      }
      if url.name == SITE && deleteCR {
        s := "";
      }
      s := TrimCommas(s);
      data := if s == "" then data - {url.name} else data[url.name := s];
    }

    /** The three edits that tidy up after a removal. */
    static method TrimCommas(t: string) returns (s: string)
      ensures s == Tidy(t)
    {
      s := t;
      if "," <= s {
        s := s[1..];
      }
      if s != "" && s[|s| - 1] == ',' {
        s := s[..|s| - 1];
      }
      if Contains(s, ",,") {
        s := ReplaceAll(s, ",,", ",");
      }
    }
  }

  lemma SortedLength(s: seq<string>)
    ensures |SortStrings(s)| == |s|
  {
    assert |multiset(SortStrings(s))| == |multiset(s)|;
  }
}
