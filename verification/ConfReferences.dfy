/** Remote paths in the generated indexes.conf, and the volumes they refer to. */
module ConfReferences {
  import opened Wrappers
  import opened Text
  import opened SmartStore
  import opened IndexesConf
  import opened ConfReader
  import opened ConfStanzas

  const REFERENCE := "remotePath = volume:"

  predicate IsReference(line: string) {
    REFERENCE <= line
  }

  function UpToSlash(s: string): string {
    if s == "" || s[0] == '/' then "" else [s[0]] + UpToSlash(s[1..])
  }

  /** The volume a reference names: what comes before the first slash. */
  function VolumeNamed(line: string): string
    requires IsReference(line)
  {
    UpToSlash(line[|REFERENCE|..])
  }

  lemma {:induction false} SlashEnds(volName: string, path: string)
    ensures UpToSlash(volName + "/" + path) == UpToSlash(volName)
  {
    var s := volName + "/" + path;
    if volName == "" {
      assert s[0] == '/';
    } else if volName[0] != '/' {
      assert s[1..] == volName[1..] + "/" + path && s[0] == volName[0];
      SlashEnds(volName[1..], path);
    }
  }

  lemma {:induction false} SlashFree(volName: string)
    requires '/' !in volName
    ensures UpToSlash(volName) == volName
  {
    if volName != "" {
      SlashFree(volName[1..]);
      assert volName == [volName[0]] + volName[1..];
    }
  }

  lemma RemotePathRefers(volName: string, path: string)
    ensures IsReference(RemotePath(volName, path)) && VolumeNamed(RemotePath(volName, path)) == UpToSlash(volName)
  {
    var line := RemotePath(volName, path);
    assert line == REFERENCE + (volName + "/" + path);
    assert line[|REFERENCE|..] == volName + "/" + path;
    SlashEnds(volName, path);
  }

  /** A line whose key is another one is no reference. */
  lemma OtherKeys(line: string, i: nat)
    requires i < |line| && i < |REFERENCE| && line[i] != REFERENCE[i]
    ensures !IsReference(line)
  {
  }

  ghost predicate NoReferences(lines: seq<string>) {
    forall i :: 0 <= i < |lines| ==> !IsReference(lines[i])
  }

  lemma SettingIsNoReference(key: string, value: nat, i: nat)
    requires i < |key| && i < |REFERENCE| && key[i] != REFERENCE[i]
    ensures NoReferences(Setting(key, value))
  {
  }

  lemma NumericAreNoReferences(ix: Index)
    ensures NoReferences(NumericSettings(ix))
  {
    SettingIsNoReference("hotlist_bloom_filter_recency_hours", ix.bloomFilterRecencyHours, 0);
    SettingIsNoReference("hotlist_recency_secs", ix.recencySecs, 0);
    SettingIsNoReference("maxGlobalDataSizeMB", ix.maxGlobalDataSizeMB, 0);
    SettingIsNoReference("maxGlobalRawDataSizeMB", ix.maxGlobalRawDataSizeMB, 0);
  }

  lemma VolumeSettingsAreNoReferences(v: Volume, keys: Keys)
    ensures NoReferences(VolumeSettings(v, keys))
  {
    var lines := VolumeSettings(v, keys);
    OtherKeys(lines[0], 0);
    OtherKeys(lines[1], 0);
    OtherKeys(lines[2], 6);
    OtherKeys(lines[3], 6);
    OtherKeys(lines[4], 6);
  }

  lemma FixedAreNoReferences()
    ensures NoReferences(FixedSettings())
  {
    var lines := FixedSettings();
    OtherKeys(lines[0], 2);
    OtherKeys(lines[1], 0);
    OtherKeys(lines[2], 0);
    OtherKeys(lines[3], 0);
    OtherKeys(lines[4], 0);
  }

  /** Every reference among the settings names a volume that has a stanza. */
  ghost predicate AllLead(settings: seq<string>, names: seq<string>) {
    forall i :: 0 <= i < |settings| && IsReference(settings[i]) ==> "volume:" + VolumeNamed(settings[i]) in names
  }

  ghost predicate Closed(stanzas: seq<Stanza>, names: seq<string>) {
    forall k :: 0 <= k < |stanzas| ==> AllLead(stanzas[k].settings, names)
  }

  /** The volume referred to is found under that name, as Splunk reads it. */
  predicate Leads(s: Spec, volName: string) {
    volName == "" || "volume:" + UpToSlash(volName) in Names(s)
  }

  lemma LeadAppend(a: seq<string>, b: seq<string>, names: seq<string>)
    ensures AllLead(a + b, names) <==> AllLead(a, names) && AllLead(b, names)
  {
    assert forall i :: 0 <= i < |a| ==> (a + b)[i] == a[i];
    assert forall i :: 0 <= i < |b| ==> (a + b)[|a| + i] == b[i];
  }

  lemma RemotePathLeads(volName: string, path: string, s: Spec)
    ensures AllLead(if volName == "" then [] else [RemotePath(volName, path)], Names(s)) <==> Leads(s, volName)
  {
    RemotePathRefers(volName, path);
    if volName != "" {
      assert [RemotePath(volName, path)][0] == RemotePath(volName, path);
    }
  }

  lemma DefaultsLead(s: Spec)
    ensures AllLead(FixedSettings() + OptionalDefaults(s.defaults), Names(s)) <==> Leads(s, s.defaults.volName)
  {
    var d, names := s.defaults, Names(s);
    var lines := if d.volName == "" then [] else [RemotePath(d.volName, INDEX_NAME)];
    var m1 := Setting("maxGlobalDataSizeMB", d.maxGlobalDataSizeMB);
    var m2 := Setting("maxGlobalRawDataSizeMB", d.maxGlobalRawDataSizeMB);
    FixedAreNoReferences();
    SettingIsNoReference("maxGlobalDataSizeMB", d.maxGlobalDataSizeMB, 0);
    SettingIsNoReference("maxGlobalRawDataSizeMB", d.maxGlobalRawDataSizeMB, 0);
    LeadAppend(FixedSettings(), OptionalDefaults(d), names);
    LeadAppend(lines + m1, m2, names);
    LeadAppend(lines, m1, names);
    RemotePathLeads(d.volName, INDEX_NAME, s);
  }

  lemma IndexLeads(s: Spec, ix: Index)
    ensures AllLead(RemotePathLines(ix) + NumericSettings(ix), Names(s)) <==> Leads(s, ix.volName)
  {
    NumericAreNoReferences(ix);
    LeadAppend(RemotePathLines(ix), NumericSettings(ix), Names(s));
    RemotePathLeads(ix.volName, if ix.remotePath != "" then ix.remotePath else INDEX_NAME, s);
  }

  /** Every volume the spec refers to is found under that name. */
  ghost predicate AllNamesLead(s: Spec) {
    Leads(s, s.defaults.volName) && forall i :: 0 <= i < |s.indexes| ==> Leads(s, s.indexes[i].volName)
  }

  lemma StanzaLeads(s: Spec, keys: seq<Keys>, k: nat)
    requires OneLiners(s, keys) && k < |StanzasFor(s, keys)|
    ensures AllLead(StanzasFor(s, keys)[k].settings, Names(s)) <==>
      if k == 0 then Leads(s, s.defaults.volName)
      else if k <= |s.volumes| then true
      else Leads(s, s.indexes[k - 1 - |s.volumes|].volName)
  {
    if k == 0 {
      DefaultsBlock(s.defaults);
      DefaultsLead(s);
    } else if k <= |s.volumes| {
      StanzaForVolume(s, keys, k - 1);
      VolumeSettingsAreNoReferences(s.volumes[k - 1], keys[k - 1]);
    } else {
      StanzaForIndex(s, keys, k - 1 - |s.volumes|);
      IndexLeads(s, s.indexes[k - 1 - |s.volumes|]);
    }
  }

  /** Every reference in the text leads to a stanza exactly when each referenced name, up to its first slash, does. */
  lemma ReferencesLeadIff(s: Spec, keys: seq<Keys>)
    requires OneLiners(s, keys)
    ensures Closed(ReadConf(Conf(s, keys)), Names(s)) <==> AllNamesLead(s)
  {
    ConfReads(s, keys);
    var stanzas := StanzasFor(s, keys);
    forall k: nat | k < |stanzas|
      ensures AllLead(stanzas[k].settings, Names(s)) <==>
        if k == 0 then Leads(s, s.defaults.volName)
        else if k <= |s.volumes| then true
        else Leads(s, s.indexes[k - 1 - |s.volumes|].volName)
    {
      StanzaLeads(s, keys, k);
    }
    assert AllLead(stanzas[0].settings, Names(s)) <==> Leads(s, s.defaults.volName);
    forall i | 0 <= i < |s.indexes|
      ensures AllLead(stanzas[1 + |s.volumes| + i].settings, Names(s)) <==> Leads(s, s.indexes[i].volName)
    {
    }
  }

  lemma ExistingVolumeLeads(s: Spec, volName: string)
    requires VolumeExists(s.volumes, volName) && '/' !in volName
    ensures Leads(s, volName)
  {
    SlashFree(volName);
    var v :| v in s.volumes && v.name == volName;
    var i :| 0 <= i < |s.volumes| && s.volumes[i] == v;
    assert Names(s)[1 + i] == "volume:" + volName;
  }

  /** For an accepted spec whose volume names have no slash, every reference leads to a stanza. */
  lemma AcceptedReferencesLead(s: Spec, keys: seq<Keys>)
    requires FirstFault(s).None? && OneLiners(s, keys)
    requires forall v <- s.volumes :: '/' !in v.name
    ensures Closed(ReadConf(Conf(s, keys)), Names(s))
  {
    ValidationIsExact(s);
    ReferencesLeadIff(s, keys);
    if s.defaults.volName != "" {
      ExistingVolumeLeads(s, s.defaults.volName);
    }
    forall i | 0 <= i < |s.indexes| ensures Leads(s, s.indexes[i].volName) {
      assert ValidIndex(s, s.indexes[i]);
      if s.indexes[i].volName != "" {
        ExistingVolumeLeads(s, s.indexes[i].volName);
      }
    }
  }

  predicate HasRemotePath(settings: seq<string>) {
    exists line <- settings :: IsReference(line)
  }

  /** Every index of an accepted spec has a remote path, in its own stanza or in the default one. */
  lemma EveryIndexHasRemotePath(s: Spec, keys: seq<Keys>, i: nat)
    requires FirstFault(s).None? && OneLiners(s, keys) && i < |s.indexes|
    ensures var stanzas := ReadConf(Conf(s, keys));
      && |stanzas| == |Names(s)|
      && stanzas[1 + |s.volumes| + i].name == s.indexes[i].name
      && (HasRemotePath(stanzas[1 + |s.volumes| + i].settings) || HasRemotePath(stanzas[0].settings))
  {
    ValidationIsExact(s);
    ConfReads(s, keys);
    var ix, d := s.indexes[i], s.defaults;
    StanzaForIndex(s, keys, i);
    DefaultsBlock(d);
    assert ValidIndex(s, ix);
    if ix.volName != "" {
      RemotePathRefers(ix.volName, if ix.remotePath != "" then ix.remotePath else INDEX_NAME);
      assert (RemotePathLines(ix) + NumericSettings(ix))[0] == RemotePathLines(ix)[0];
    } else {
      RemotePathRefers(d.volName, INDEX_NAME);
      assert (FixedSettings() + OptionalDefaults(d))[|FixedSettings()|] == RemotePath(d.volName, INDEX_NAME);
    }
  }
}
