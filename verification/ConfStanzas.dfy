/**
 The generated indexes.conf is closed: unique stanzas, a remote path for every index, references that lead
 somewhere.
 */
module ConfStanzas {
  import opened Wrappers
  import opened Text
  import opened Decimal
  import opened SmartStore
  import opened IndexesConf
  import opened ConfReader

  predicate OneLine(s: string) {
    '\n' !in s
  }

  /** No string of the spec, and no key, has a line break in it. */
  ghost predicate OneLiners(s: Spec, keys: seq<Keys>) {
    && |keys| == |s.volumes|
    && (forall i :: 0 <= i < |keys| ==> OneLine(keys[i].access) && OneLine(keys[i].secret))
    && (forall i :: 0 <= i < |s.volumes| ==>
          OneLine(s.volumes[i].name) && OneLine(s.volumes[i].endpoint) && OneLine(s.volumes[i].path))
    && (forall i :: 0 <= i < |s.indexes| ==>
          OneLine(s.indexes[i].name) && OneLine(s.indexes[i].volName) && OneLine(s.indexes[i].remotePath))
    && OneLine(s.defaults.volName)
  }

  predicate IsProperLine(line: string) {
    IsSetting(line) && OneLine(line)
  }

  ghost predicate ProperLines(lines: seq<string>) {
    forall i :: 0 <= i < |lines| ==> IsProperLine(lines[i])
  }

  lemma JoinedLine(key: string, value: string)
    requires IsProperLine(key) && OneLine(value)
    ensures IsProperLine(key + value)
  {
  }

  lemma SettingIsProper(key: string, value: nat)
    requires IsProperLine(key)
    ensures ProperLines(Setting(key, value))
  {
    JoinedLine(key, " = ");
    JoinedLine(key + " = ", Itoa(value));
  }

  lemma RemotePathIsProper(volName: string, path: string)
    requires OneLine(volName) && OneLine(path)
    ensures IsProperLine(RemotePath(volName, path))
  {
    JoinedLine("remotePath = volume:", volName);
    JoinedLine("remotePath = volume:" + volName, "/");
    JoinedLine("remotePath = volume:" + volName + "/", path);
  }

  lemma ProperAppend(a: seq<string>, b: seq<string>)
    requires ProperLines(a) && ProperLines(b)
    ensures ProperLines(a + b)
  {
  }

  lemma HeaderBlock(name: string, lines: seq<string>)
    requires OneLine(name) && ProperLines(lines)
    ensures ProperBlock(["[" + name + "]"] + lines)
    ensures StanzaOf(["[" + name + "]"] + lines) == Stanza(name, lines)
  {
    var b := ["[" + name + "]"] + lines;
    assert b[0] == "[" + name + "]" && b[1..] == lines;
    assert b[0][1..|b[0]| - 1] == name;
    assert forall i :: 0 < i < |b| ==> b[i] == lines[i - 1];
  }

  lemma FixedSettingsAreProper()
    ensures ProperLines(FixedSettings())
  {
    PathIsProper("homePath = $SPLUNK_DB/", "/db");
    PathIsProper("coldPath = $SPLUNK_DB/", "/colddb");
    PathIsProper("thawedPath = $SPLUNK_DB/", "/thaweddb");
  }

  lemma PathIsProper(key: string, suffix: string)
    requires IsProperLine(key) && OneLine(suffix)
    ensures IsProperLine(key + INDEX_NAME + suffix)
  {
    JoinedLine(key, INDEX_NAME);
    JoinedLine(key + INDEX_NAME, suffix);
  }

  lemma DefaultsBlock(d: Defaults)
    requires OneLine(d.volName)
    ensures ProperBlock(DefaultsLines(d))
    ensures StanzaOf(DefaultsLines(d)) == Stanza("default", FixedSettings() + OptionalDefaults(d))
  {
    FixedSettingsAreProper();
    RemotePathIsProper(d.volName, INDEX_NAME);
    SettingIsProper("maxGlobalDataSizeMB", d.maxGlobalDataSizeMB);
    SettingIsProper("maxGlobalRawDataSizeMB", d.maxGlobalRawDataSizeMB);
    ProperAppend(FixedSettings(), OptionalDefaults(d));
    HeaderBlock("default", FixedSettings() + OptionalDefaults(d));
  }

  lemma VolumeBlock(v: Volume, keys: Keys)
    requires OneLine(v.name) && OneLine(v.endpoint) && OneLine(v.path) && OneLine(keys.access) && OneLine(keys.secret)
    ensures ProperBlock(VolumeLines(v, keys))
    ensures StanzaOf(VolumeLines(v, keys)) == Stanza("volume:" + v.name, VolumeSettings(v, keys))
  {
    JoinedLine("path = s3://", v.path);
    JoinedLine("remote.s3.access_key = ", keys.access);
    JoinedLine("remote.s3.secret_key = ", keys.secret);
    JoinedLine("remote.s3.endpoint = ", v.endpoint);
    HeaderBlock("volume:" + v.name, VolumeSettings(v, keys));
  }

  lemma NumericSettingsAreProper(ix: Index)
    ensures ProperLines(NumericSettings(ix))
  {
    SettingIsProper("hotlist_bloom_filter_recency_hours", ix.bloomFilterRecencyHours);
    SettingIsProper("hotlist_recency_secs", ix.recencySecs);
    SettingIsProper("maxGlobalDataSizeMB", ix.maxGlobalDataSizeMB);
    SettingIsProper("maxGlobalRawDataSizeMB", ix.maxGlobalRawDataSizeMB);
  }

  lemma IndexBlock(ix: Index)
    requires OneLine(ix.name) && OneLine(ix.volName) && OneLine(ix.remotePath)
    ensures ProperBlock(IndexLines(ix))
    ensures StanzaOf(IndexLines(ix)) == Stanza(ix.name, RemotePathLines(ix) + NumericSettings(ix))
  {
    RemotePathIsProper(ix.volName, if ix.remotePath != "" then ix.remotePath else INDEX_NAME);
    NumericSettingsAreProper(ix);
    ProperAppend(RemotePathLines(ix), NumericSettings(ix));
    HeaderBlock(ix.name, RemotePathLines(ix) + NumericSettings(ix));
  }

  lemma ReadBlank(text: string, stanzas: seq<Stanza>)
    requires Blank(text)
    ensures ReadLines(Split(text, '\n'), stanzas) == stanzas
  {
    SplitOne(text, '\n');
  }

  /** The parts of the text, as they are put together, read one after the other. */
  lemma ReadParts(d: seq<string>, volumes: seq<seq<string>>, indexes: seq<seq<string>>)
    requires ProperBlock(d) && ProperBlocks(volumes) && ProperBlocks(indexes)
    ensures ReadConf(Join(d, '\n') + "\n" + " " + Blocks(volumes) + " " + Blocks(indexes))
      == [StanzaOf(d)] + StanzasOf(volumes) + StanzasOf(indexes)
  {
    var tail := " " + (Blocks(indexes) + "");
    var rest := " " + (Blocks(volumes) + tail);
    PartsAre(d, volumes, indexes);
    forall p | p in d ensures '\n' !in p {
      var i :| 0 <= i < |d| && d[i] == p;
    }
    SplitAppend(Join(d, '\n'), rest, '\n');
    SplitJoin(d, '\n');
    ReadAppend(d, Split(rest, '\n'), []);
    ReadBlock(d, []);
    assert [] + [StanzaOf(d)] == [StanzaOf(d)];
    ReadTail(volumes, indexes, [StanzaOf(d)]);
  }

  lemma PartsAre(d: seq<string>, volumes: seq<seq<string>>, indexes: seq<seq<string>>)
    ensures Join(d, '\n') + "\n" + " " + Blocks(volumes) + " " + Blocks(indexes)
      == Join(d, '\n') + "\n" + (" " + (Blocks(volumes) + (" " + (Blocks(indexes) + ""))))
  {
    var v, x := Blocks(volumes), Blocks(indexes);
    assert x + "" == x;
    var j := Join(d, '\n') + "\n";
    assert j + " " + v + " " + x == j + (" " + (v + (" " + x)));
  }

  lemma ReadTail(volumes: seq<seq<string>>, indexes: seq<seq<string>>, stanzas: seq<Stanza>)
    requires ProperBlocks(volumes) && ProperBlocks(indexes)
    ensures ReadLines(Split(" " + (Blocks(volumes) + (" " + (Blocks(indexes) + ""))), '\n'), stanzas)
      == stanzas + StanzasOf(volumes) + StanzasOf(indexes)
  {
    var more := stanzas + StanzasOf(volumes);
    ReadBlocks(" ", volumes, " " + (Blocks(indexes) + ""), stanzas);
    assert " " + (" " + (Blocks(indexes) + "")) == "  " + (Blocks(indexes) + "");
    ReadBlocks("  ", indexes, "", more);
    ReadBlocks(" ", indexes, "", more);
    ReadBlank("  " + "", more + StanzasOf(indexes));
    ReadBlank(" " + "", more + StanzasOf(indexes));
    ReadBlank("", more + StanzasOf(indexes));
  }

  /** What the generated text reads as. */
  function StanzasFor(s: Spec, keys: seq<Keys>): seq<Stanza>
    requires |keys| == |s.volumes|
  {
    [StanzaOf(DefaultsLines(s.defaults))] + StanzasOf(VolumeBlocks(s.volumes, keys)) + StanzasOf(IndexBlocks(s.indexes))
  }

  lemma ConfReads(s: Spec, keys: seq<Keys>)
    requires OneLiners(s, keys)
    ensures ReadConf(Conf(s, keys)) == StanzasFor(s, keys)
  {
    DefaultsBlock(s.defaults);
    forall i: nat | i < |s.volumes| ensures ProperBlock(VolumeBlocks(s.volumes, keys)[i]) {
      VolumeBlockAt(s.volumes, keys, i);
      VolumeBlock(s.volumes[i], keys[i]);
    }
    forall i: nat | i < |s.indexes| ensures ProperBlock(IndexBlocks(s.indexes)[i]) {
      IndexBlockAt(s.indexes, i);
      IndexBlock(s.indexes[i]);
    }
    ReadParts(DefaultsLines(s.defaults), VolumeBlocks(s.volumes, keys), IndexBlocks(s.indexes));
  }

  lemma StanzaForVolume(s: Spec, keys: seq<Keys>, i: nat)
    requires OneLiners(s, keys) && i < |s.volumes|
    ensures StanzasFor(s, keys)[1 + i] == Stanza("volume:" + s.volumes[i].name, VolumeSettings(s.volumes[i], keys[i]))
  {
    StanzaAt(VolumeBlocks(s.volumes, keys), i);
    VolumeBlockAt(s.volumes, keys, i);
    VolumeBlock(s.volumes[i], keys[i]);
  }

  lemma StanzaForIndex(s: Spec, keys: seq<Keys>, i: nat)
    requires OneLiners(s, keys) && i < |s.indexes|
    ensures StanzasFor(s, keys)[1 + |s.volumes| + i]
      == Stanza(s.indexes[i].name, RemotePathLines(s.indexes[i]) + NumericSettings(s.indexes[i]))
  {
    StanzaAt(IndexBlocks(s.indexes), i);
    IndexBlockAt(s.indexes, i);
    IndexBlock(s.indexes[i]);
  }

  /** The stanza names, in order. */
  function Names(s: Spec): (names: seq<string>)
    ensures |names| == 1 + |s.volumes| + |s.indexes|
    ensures names[0] == "default"
    ensures forall i :: 0 <= i < |s.volumes| ==> names[1 + i] == "volume:" + s.volumes[i].name
    ensures forall i :: 0 <= i < |s.indexes| ==> names[1 + |s.volumes| + i] == s.indexes[i].name
  {
    ["default"]
    + seq(|s.volumes|, i requires 0 <= i < |s.volumes| => "volume:" + s.volumes[i].name)
    + seq(|s.indexes|, i requires 0 <= i < |s.indexes| => s.indexes[i].name)
  }

  lemma NamesAre(s: Spec, keys: seq<Keys>, k: nat)
    requires OneLiners(s, keys) && k < |StanzasFor(s, keys)|
    ensures k < |Names(s)| && StanzasFor(s, keys)[k].name == Names(s)[k]
  {
    if k == 0 {
      DefaultsBlock(s.defaults);
    } else if k <= |s.volumes| {
      StanzaForVolume(s, keys, k - 1);
    } else {
      StanzaForIndex(s, keys, k - 1 - |s.volumes|);
    }
  }

  ghost predicate UniqueNames(stanzas: seq<Stanza>) {
    forall i, j :: 0 <= i < j < |stanzas| ==> stanzas[i].name != stanzas[j].name
  }

  ghost predicate DistinctTexts(names: seq<string>) {
    forall i, j :: 0 <= i < j < |names| ==> names[i] != names[j]
  }

  /** No index is named like the default stanza or like a volume's. */
  ghost predicate NoReservedNames(s: Spec) {
    forall i :: 0 <= i < |s.indexes| ==>
      && s.indexes[i].name != "default"
      && forall j :: 0 <= j < |s.volumes| ==> s.indexes[i].name != "volume:" + s.volumes[j].name
  }

  lemma VolumeNamesDiffer(a: string, b: string)
    requires a != b
    ensures "volume:" + a != "volume:" + b && "volume:" + a != "default"
  {
    assert ("volume:" + a)[7..] == a && ("volume:" + b)[7..] == b;
    assert ("volume:" + a)[0] == 'v' && "default"[0] == 'd';
  }

  lemma DistinctIffNoneReserved(s: Spec)
    requires Valid(s)
    ensures DistinctTexts(Names(s)) <==> NoReservedNames(s)
  {
    var names, v := Names(s), |s.volumes|;
    forall i, j | 0 <= i < j < |names| && NoReservedNames(s) ensures names[i] != names[j] {
      NamesDiffer(s, i, j);
    }
    forall i: nat | i < |s.indexes| && DistinctTexts(names)
      ensures s.indexes[i].name != "default"
      ensures forall j :: 0 <= j < v ==> s.indexes[i].name != "volume:" + s.volumes[j].name
    {
      assert names[0] != names[1 + v + i];
      forall j | 0 <= j < v ensures s.indexes[i].name != "volume:" + s.volumes[j].name {
        assert names[1 + j] != names[1 + v + i];
      }
    }
  }

  lemma NamesDiffer(s: Spec, i: nat, j: nat)
    requires Valid(s) && NoReservedNames(s) && i < j < |Names(s)|
    ensures Names(s)[i] != Names(s)[j]
  {
    var v := |s.volumes|;
    if j <= v {
      VolumeNamesDiffer(s.volumes[j - 1].name, if i == 0 then "" else s.volumes[i - 1].name);
    }
  }

  /** The text of an accepted spec has unique stanzas exactly when no index takes a reserved name. */
  lemma UniqueStanzasIff(s: Spec, keys: seq<Keys>)
    requires FirstFault(s).None? && OneLiners(s, keys)
    ensures UniqueNames(ReadConf(Conf(s, keys))) <==> NoReservedNames(s)
  {
    ValidationIsExact(s);
    ConfReads(s, keys);
    DistinctIffNoneReserved(s);
    forall k: nat | k < |StanzasFor(s, keys)| ensures StanzasFor(s, keys)[k].name == Names(s)[k] {
      NamesAre(s, keys, k);
    }
    assert |StanzasFor(s, keys)| == |Names(s)|;
  }
}
