/** The text of indexes.conf, and how Splunk reads it: as stanzas of settings. */
module IndexesConf {
  import opened Wrappers
  import opened Text
  import opened Decimal
  import opened SmartStore

  const INDEX_NAME := "$_index_name"

  datatype Keys = Keys(access: string, secret: string)

  function RemotePath(volName: string, path: string): string {
    "remotePath = volume:" + volName + "/" + path
  }

  /** A numeric setting, written unless it is zero. */
  function Setting(key: string, value: nat): seq<string> {
    if value == 0 then [] else [key + " = " + Itoa(value)]
  }

  function FixedSettings(): seq<string> {
    ["repFactor = auto", "maxDataSize = auto",
     "homePath = $SPLUNK_DB/" + INDEX_NAME + "/db", "coldPath = $SPLUNK_DB/" + INDEX_NAME + "/colddb",
     "thawedPath = $SPLUNK_DB/" + INDEX_NAME + "/thaweddb"]
  }

  function OptionalDefaults(d: Defaults): seq<string> {
    (if d.volName == "" then [] else [RemotePath(d.volName, INDEX_NAME)])
    + Setting("maxGlobalDataSizeMB", d.maxGlobalDataSizeMB)
    + Setting("maxGlobalRawDataSizeMB", d.maxGlobalRawDataSizeMB)
  }

  function DefaultsLines(d: Defaults): seq<string> {
    ["[" + "default" + "]"] + (FixedSettings() + OptionalDefaults(d))
  }

  function VolumeSettings(v: Volume, keys: Keys): seq<string> {
    ["storageType = remote", "path = s3://" + v.path,
     "remote.s3.access_key = " + keys.access, "remote.s3.secret_key = " + keys.secret,
     "remote.s3.endpoint = " + v.endpoint]
  }

  function VolumeLines(v: Volume, keys: Keys): seq<string> {
    ["[" + ("volume:" + v.name) + "]"] + VolumeSettings(v, keys)
  }

  function RemotePathLines(ix: Index): seq<string> {
    if ix.volName == "" then []
    else [RemotePath(ix.volName, if ix.remotePath != "" then ix.remotePath else INDEX_NAME)]
  }

  function NumericSettings(ix: Index): seq<string> {
    Setting("hotlist_bloom_filter_recency_hours", ix.bloomFilterRecencyHours)
    + Setting("hotlist_recency_secs", ix.recencySecs)
    + Setting("maxGlobalDataSizeMB", ix.maxGlobalDataSizeMB)
    + Setting("maxGlobalRawDataSizeMB", ix.maxGlobalRawDataSizeMB)
  }

  function IndexLines(ix: Index): seq<string> {
    ["[" + ix.name + "]"] + (RemotePathLines(ix) + NumericSettings(ix))
  }

  /** Blocks of lines, each after a line break and ended by one. */
  function Blocks(blocks: seq<seq<string>>): string {
    if blocks == [] then ""
    else "\n" + Join(blocks[0], '\n') + "\n" + Blocks(blocks[1..])
  }

  function VolumeBlocks(volumes: seq<Volume>, keys: seq<Keys>): (blocks: seq<seq<string>>)
    requires |keys| == |volumes|
    ensures |blocks| == |volumes|
  {
    if volumes == [] then [] else [VolumeLines(volumes[0], keys[0])] + VolumeBlocks(volumes[1..], keys[1..])
  }

  lemma {:induction false} VolumeBlockAt(volumes: seq<Volume>, keys: seq<Keys>, i: nat)
    requires |keys| == |volumes| && i < |volumes|
    ensures VolumeBlocks(volumes, keys)[i] == VolumeLines(volumes[i], keys[i])
  {
    if i > 0 {
      VolumeBlockAt(volumes[1..], keys[1..], i - 1);
    }
  }

  function IndexBlocks(indexes: seq<Index>): (blocks: seq<seq<string>>)
    ensures |blocks| == |indexes|
  {
    if indexes == [] then [] else [IndexLines(indexes[0])] + IndexBlocks(indexes[1..])
  }

  lemma {:induction false} IndexBlockAt(indexes: seq<Index>, i: nat)
    requires i < |indexes|
    ensures IndexBlocks(indexes)[i] == IndexLines(indexes[i])
  {
    if i > 0 {
      IndexBlockAt(indexes[1..], i - 1);
    }
  }

  /** The text of indexes.conf. */
  function Conf(s: Spec, keys: seq<Keys>): string
    requires |keys| == |s.volumes|
  {
    Join(DefaultsLines(s.defaults), '\n') + "\n" + " " + Blocks(VolumeBlocks(s.volumes, keys)) + " "
    + Blocks(IndexBlocks(s.indexes))
  }

  lemma {:induction false} BlocksSnoc(blocks: seq<seq<string>>, b: seq<string>)
    ensures Blocks(blocks + [b]) == Blocks(blocks) + "\n" + Join(b, '\n') + "\n"
  {
    if blocks == [] {
      assert [] + [b] == [b] && [b][1..] == [];
    } else {
      assert (blocks + [b])[1..] == blocks[1..] + [b];
      BlocksSnoc(blocks[1..], b);
    }
  }

  /** Adds a line to the text. */
  method AddLine(conf: string, ghost start: string, ghost lines: seq<string>, line: string) returns (r: string)
    requires lines != [] && conf == start + Join(lines, '\n')
    ensures r == start + Join(lines + [line], '\n')
  {
    JoinAppend(lines, [line], '\n');
    assert start + (Join(lines, '\n') + "\n" + line) == (start + Join(lines, '\n')) + "\n" + line;
    return conf + "\n" + line;
  }

  method AddSetting(conf: string, ghost start: string, ghost lines: seq<string>, key: string,
                    value: nat) returns (r: string)
    requires lines != [] && conf == start + Join(lines, '\n')
    ensures r == start + Join(lines + Setting(key, value), '\n')
  {
    assert lines + [] == lines;
    r := conf;
    if value != 0 {
      r := AddLine(conf, start, lines, key + " = " + Itoa(value));
    }
  }

  method AddDefaults(before: string, ghost fixed: seq<string>, d: Defaults) returns (conf: string)
    requires fixed != [] && before == Join(fixed, '\n')
    ensures conf == Join(fixed + OptionalDefaults(d), '\n') + "\n"
  {
    ghost var lines := fixed;
    conf := before;
    assert "" + conf == conf && lines + [] == lines;
    if d.volName != "" {
      conf := AddLine(conf, "", lines, RemotePath(d.volName, INDEX_NAME));
      lines := lines + [RemotePath(d.volName, INDEX_NAME)];
    }
    conf := AddSetting(conf, "", lines, "maxGlobalDataSizeMB", d.maxGlobalDataSizeMB);
    lines := lines + Setting("maxGlobalDataSizeMB", d.maxGlobalDataSizeMB);
    conf := AddSetting(conf, "", lines, "maxGlobalRawDataSizeMB", d.maxGlobalRawDataSizeMB);
    lines := lines + Setting("maxGlobalRawDataSizeMB", d.maxGlobalRawDataSizeMB);
    assert lines == fixed + OptionalDefaults(d);
    conf := conf + "\n";
  }

  method GetSmartstoreIndexesDefaults(d: Defaults) returns (conf: string)
    ensures conf == Join(DefaultsLines(d), '\n') + "\n"
  {
    var fixed := ["[" + "default" + "]"] + FixedSettings();
    conf := AddDefaults(Join(fixed, '\n'), fixed, d);
    assert fixed + OptionalDefaults(d) == DefaultsLines(d);
  }

  /** Adds a block of lines to the text. */
  method AddBlock(conf: string, ghost blocks: seq<seq<string>>, b: seq<string>) returns (r: string)
    requires conf == Blocks(blocks)
    ensures r == Blocks(blocks + [b])
  {
    BlocksSnoc(blocks, b);
    return conf + "\n" + Join(b, '\n') + "\n";
  }

  /** `keys` holds the keys of each volume, or None when its secret cannot be read. */
  method GetSmartstoreVolumesConfig(volumes: seq<Volume>, keys: seq<Option<Keys>>) returns (conf: Option<string>)
    requires |keys| == |volumes|
    ensures conf.None? <==> None in keys
    ensures conf.Some? ==> conf.value == Blocks(VolumeBlocks(volumes, Readable(keys)))
  {
    ghost var blocks := VolumeBlocks(volumes, Readable(keys));
    var text := "";
    for i := 0 to |volumes|
      invariant forall k :: 0 <= k < i ==> keys[k].Some?
      invariant text == Blocks(blocks[..i])
    {
      if keys[i].None? { return None; }
      VolumeBlockAt(volumes, Readable(keys), i);
      text := AddBlock(text, blocks[..i], VolumeLines(volumes[i], keys[i].value));
      assert blocks[..i + 1] == blocks[..i] + [blocks[i]];
    }
    assert blocks[..|volumes|] == blocks;
    return Some(text);
  }

  /** The keys, when all of them can be read. */
  function Readable(keys: seq<Option<Keys>>): (r: seq<Keys>)
    ensures |r| == |keys|
    ensures forall i :: 0 <= i < |keys| && keys[i].Some? ==> r[i] == keys[i].value
  {
    if keys == [] then []
    else [if keys[0].Some? then keys[0].value else Keys("", "")] + Readable(keys[1..])
  }

  method GetSmartstoreIndexesConfig(indexes: seq<Index>) returns (conf: string)
    ensures conf == Blocks(IndexBlocks(indexes))
  {
    ghost var blocks := IndexBlocks(indexes);
    conf := "";
    for i := 0 to |indexes|
      invariant conf == Blocks(blocks[..i])
    {
      IndexBlockAt(indexes, i);
      conf := AddIndexBlock(conf, blocks[..i], indexes[i]);
      assert blocks[..i + 1] == blocks[..i] + [blocks[i]];
    }
    assert blocks[..|indexes|] == blocks;
  }

  method AddIndexBlock(conf: string, ghost blocks: seq<seq<string>>, ix: Index) returns (r: string)
    requires conf == Blocks(blocks)
    ensures r == Blocks(blocks + [IndexLines(ix)])
  {
    BlocksSnoc(blocks, IndexLines(ix));
    r := AddIndex(conf, ix);
  }

  method AddNumericSettings(before: string, ghost start: string, ghost header: seq<string>,
                            ix: Index) returns (conf: string)
    requires header != [] && before == start + Join(header, '\n')
    ensures conf == start + Join(header + NumericSettings(ix), '\n')
  {
    ghost var lines := header;
    conf := AddSetting(before, start, lines, "hotlist_bloom_filter_recency_hours", ix.bloomFilterRecencyHours);
    lines := lines + Setting("hotlist_bloom_filter_recency_hours", ix.bloomFilterRecencyHours);
    conf := AddSetting(conf, start, lines, "hotlist_recency_secs", ix.recencySecs);
    lines := lines + Setting("hotlist_recency_secs", ix.recencySecs);
    conf := AddSetting(conf, start, lines, "maxGlobalDataSizeMB", ix.maxGlobalDataSizeMB);
    lines := lines + Setting("maxGlobalDataSizeMB", ix.maxGlobalDataSizeMB);
    conf := AddSetting(conf, start, lines, "maxGlobalRawDataSizeMB", ix.maxGlobalRawDataSizeMB);
    lines := lines + Setting("maxGlobalRawDataSizeMB", ix.maxGlobalRawDataSizeMB);
    assert lines == header + NumericSettings(ix);
  }

  method AddIndex(before: string, ix: Index) returns (conf: string)
    ensures conf == before + "\n" + Join(IndexLines(ix), '\n') + "\n"
  {
    ghost var start, lines := before + "\n", ["[" + ix.name + "]"];
    conf := before + "\n" + ("[" + ix.name + "]");
    if ix.remotePath != "" && ix.volName != "" {
      conf := AddLine(conf, start, lines, RemotePath(ix.volName, ix.remotePath));
    } else if ix.volName != "" {
      conf := AddLine(conf, start, lines, RemotePath(ix.volName, INDEX_NAME));
    }
    assert lines + [] == lines;
    conf := AddNumericSettings(conf, start, lines + RemotePathLines(ix), ix);
    assert (lines + RemotePathLines(ix)) + NumericSettings(ix) == IndexLines(ix);
    conf := conf + "\n";
  }

  datatype ConfResult = Text(text: string) | KeysUnreadable | IndexesWithoutVolumes

  /** The part of ApplySmartstoreConfigMap that puts the text together. */
  method AssembleConf(s: Spec, keys: seq<Option<Keys>>) returns (result: ConfResult)
    requires |keys| == |s.volumes|
    ensures result.KeysUnreadable? <==> None in keys
    ensures result.IndexesWithoutVolumes? <==> None !in keys && s.indexes != [] && s.volumes == []
    ensures result.Text? ==> result.text == Conf(s, Readable(keys))
  {
    var volumes := GetSmartstoreVolumesConfig(s.volumes, keys);
    if volumes.None? { return KeysUnreadable; }
    var indexes := GetSmartstoreIndexesConfig(s.indexes);
    if indexes != "" && volumes.value == "" { return IndexesWithoutVolumes; }
    var defaults := GetSmartstoreIndexesDefaults(s.defaults);
    return Text(defaults + " " + volumes.value + " " + indexes);
  }

  /** The error for indexes without volumes cannot occur for a spec that validation accepts. */
  method AssembleValidConf(s: Spec, keys: seq<Option<Keys>>) returns (result: ConfResult)
    requires |keys| == |s.volumes| && FirstFault(s).None?
    ensures !result.IndexesWithoutVolumes?
  {
    ValidationIsExact(s);
    result := AssembleConf(s, keys);
  }
}
