/**
 What Splunk finds in the generated indexes.conf: the value of each setting of each stanza, looked up by its
 key, is the one the spec and the volumes' secrets give.
 */
module ConfValues {
  import opened Wrappers
  import opened Text
  import opened Decimal
  import opened SmartStore
  import opened IndexesConf
  import opened ConfReader
  import opened ConfStanzas

  predicate HasKey(line: string, key: string) {
    key + " = " <= line
  }

  /** The value of a key among a stanza's settings: the last line of that key decides. */
  function ValueOf(settings: seq<string>, key: string): Option<string>
    decreases |settings|
  {
    if settings == [] then None
    else
      var last := settings[|settings| - 1];
      if HasKey(last, key) then Some(last[|key| + 3..]) else ValueOf(settings[..|settings| - 1], key)
  }

  /** What later settings leave open is up to the earlier ones. */
  lemma {:induction false} ValueOfAppend(a: seq<string>, b: seq<string>, key: string)
    ensures ValueOf(a + b, key) == (if ValueOf(b, key).Some? then ValueOf(b, key) else ValueOf(a, key))
    decreases |b|
  {
    if b == [] {
      assert a + b == a;
    } else {
      var k := |b| - 1;
      assert (a + b)[..|a| + k] == a + b[..k] && (a + b)[|a| + k] == b[k];
      ValueOfAppend(a, b[..k], key);
    }
  }

  /** Two keys are told apart by a character. */
  predicate Apart(a: string, b: string) {
    exists i :: 0 <= i < |a| && i < |b| && a[i] != b[i]
  }

  lemma ApartAt(a: string, b: string, i: nat)
    requires i < |a| && i < |b| && a[i] != b[i]
    ensures Apart(a, b) && Apart(b, a)
  {
  }

  /** A line gives its own key the value after it, and gives no other key any. */
  lemma LineGives(key: string, value: string, other: string)
    ensures ValueOf([key + " = " + value], key) == Some(value)
    ensures Apart(key, other) ==> ValueOf([key + " = " + value], other) == None
  {
    var line := key + " = " + value;
    var none: seq<string> := [];
    assert [line][..0] == none;
    assert line[..|key| + 3] == key + " = " && line[|key| + 3..] == value;
    if Apart(key, other) {
      var i :| 0 <= i < |key| && i < |other| && key[i] != other[i];
      assert line[i] != (other + " = ")[i];
    }
  }

  /** A line that is not about a key leaves what the lines before it say. */
  lemma OtherLine(settings: seq<string>, key: string, value: string, other: string)
    requires Apart(key, other)
    ensures ValueOf(settings + [key + " = " + value], other) == ValueOf(settings, other)
  {
    LineGives(key, value, other);
    ValueOfAppend(settings, [key + " = " + value], other);
  }

  lemma OwnLine(settings: seq<string>, key: string, value: string)
    ensures ValueOf(settings + [key + " = " + value], key) == Some(value)
  {
    LineGives(key, value, key);
    ValueOfAppend(settings, [key + " = " + value], key);
  }

  /** A numeric setting is given its numeral, and left out when it is zero. */
  function Numeral(value: nat): Option<string> {
    if value == 0 then None else Some(Itoa(value))
  }

  lemma SettingGives(settings: seq<string>, key: string, value: nat, other: string)
    ensures ValueOf(settings + Setting(key, value), key)
      == (if value == 0 then ValueOf(settings, key) else Numeral(value))
    ensures Apart(key, other) ==> ValueOf(settings + Setting(key, value), other) == ValueOf(settings, other)
  {
    if value == 0 {
      assert settings + Setting(key, value) == settings;
    } else {
      OwnLine(settings, key, Itoa(value));
      if Apart(key, other) {
        OtherLine(settings, key, Itoa(value), other);
      }
    }
  }

  /** Lines that give each key its value. */
  ghost predicate Gives(settings: seq<string>, keys: seq<string>, values: seq<string>) {
    && |settings| == |keys| == |values|
    && forall j :: 0 <= j < |keys| ==> settings[j] == keys[j] + " = " + values[j]
  }

  ghost predicate AllApart(keys: seq<string>) {
    forall i, j :: 0 <= i < j < |keys| ==> Apart(keys[i], keys[j]) && Apart(keys[j], keys[i])
  }

  /** Keys that are apart from one another have the values given them. */
  lemma {:induction false} TableGives(settings: seq<string>, keys: seq<string>, values: seq<string>, j: nat)
    requires Gives(settings, keys, values) && AllApart(keys) && j < |keys|
    ensures ValueOf(settings, keys[j]) == Some(values[j])
    decreases |settings|
  {
    var k := |keys| - 1;
    assert settings == settings[..k] + [keys[k] + " = " + values[k]];
    if j == k {
      OwnLine(settings[..k], keys[k], values[k]);
    } else {
      OtherLine(settings[..k], keys[k], values[k], keys[j]);
      TableGives(settings[..k], keys[..k], values[..k], j);
    }
  }

  /** A key apart from all that are given has no value. */
  lemma {:induction false} TableLacks(settings: seq<string>, keys: seq<string>, values: seq<string>, key: string)
    requires Gives(settings, keys, values) && forall j :: 0 <= j < |keys| ==> Apart(keys[j], key)
    ensures ValueOf(settings, key) == None
    decreases |settings|
  {
    if settings != [] {
      var k := |keys| - 1;
      assert settings == settings[..k] + [keys[k] + " = " + values[k]];
      OtherLine(settings[..k], keys[k], values[k], key);
      TableLacks(settings[..k], keys[..k], values[..k], key);
    }
  }

  function VolumeKeys(): seq<string> {
    ["storageType", "path", "remote.s3.access_key", "remote.s3.secret_key", "remote.s3.endpoint"]
  }

  lemma S3KeysApart(access: string, secret: string, endpoint: string)
    requires access == "remote.s3.access_key" && secret == "remote.s3.secret_key" && endpoint == "remote.s3.endpoint"
    ensures AllApart([access, secret, endpoint])
  {
    ApartAt(access, secret, 10);
    ApartAt(access, endpoint, 10);
    ApartAt(secret, endpoint, 10);
  }

  /** Keys are apart if their first characters are different. */
  lemma FirstsApart(keys: seq<string>, key: string)
    requires key != "" && forall i :: 0 <= i < |keys| ==> keys[i] != "" && keys[i][0] != key[0]
    requires AllApart(keys)
    ensures AllApart([key] + keys)
  {
    forall i | 0 <= i < |keys| ensures Apart(keys[i], key) && Apart(key, keys[i]) {
      ApartAt(key, keys[i], 0);
    }
  }

  lemma VolumeKeysApart()
    ensures AllApart(VolumeKeys())
  {
    var s3 := ["remote.s3.access_key", "remote.s3.secret_key", "remote.s3.endpoint"];
    S3KeysApart(s3[0], s3[1], s3[2]);
    assert s3 == [s3[0], s3[1], s3[2]];
    FirstsApart(s3, "path");
    FirstsApart(["path"] + s3, "storageType");
    assert VolumeKeys() == ["storageType"] + (["path"] + s3);
  }

  lemma VolumeLinesGive(v: Volume, keys: Keys)
    ensures Gives(VolumeSettings(v, keys), VolumeKeys(),
                  ["remote", "s3://" + v.path, keys.access, keys.secret, v.endpoint])
  {
    assert "storageType = remote" == "storageType" + " = " + "remote";
    PathLine(v.path);
    assert "remote.s3.access_key = " == "remote.s3.access_key" + " = ";
    assert "remote.s3.secret_key = " == "remote.s3.secret_key" + " = ";
    assert "remote.s3.endpoint = " == "remote.s3.endpoint" + " = ";
  }

  lemma PathLine(path: string)
    ensures "path = s3://" + path == "path" + " = " + ("s3://" + path)
  {
    assert "path = s3://" == "path" + " = " + "s3://";
  }

  /** Where a volume is stored, and the keys to it: its stanza has them, each under its own name, and nothing else. */
  ghost predicate VolumeIsRight(found: Stanza, v: Volume, keys: Keys) {
    && found.name == "volume:" + v.name
    && |found.settings| == 5
    && ValueOf(found.settings, "storageType") == Some("remote")
    && ValueOf(found.settings, "path") == Some("s3://" + v.path)
    && ValueOf(found.settings, "remote.s3.access_key") == Some(keys.access)
    && ValueOf(found.settings, "remote.s3.secret_key") == Some(keys.secret)
    && ValueOf(found.settings, "remote.s3.endpoint") == Some(v.endpoint)
  }

  lemma VolumeStanzaIsRight(v: Volume, keys: Keys)
    ensures VolumeIsRight(Stanza("volume:" + v.name, VolumeSettings(v, keys)), v, keys)
  {
    var settings, values := VolumeSettings(v, keys), ["remote", "s3://" + v.path, keys.access, keys.secret, v.endpoint];
    VolumeKeysApart();
    VolumeLinesGive(v, keys);
    TableGives(settings, VolumeKeys(), values, 0);
    TableGives(settings, VolumeKeys(), values, 1);
    TableGives(settings, VolumeKeys(), values, 2);
    TableGives(settings, VolumeKeys(), values, 3);
    TableGives(settings, VolumeKeys(), values, 4);
  }

  lemma VolumesAreRight(s: Spec, keys: seq<Keys>, i: nat)
    requires OneLiners(s, keys) && i < |s.volumes|
    ensures var stanzas := ReadConf(Conf(s, keys));
      |stanzas| == 1 + |s.volumes| + |s.indexes| && VolumeIsRight(stanzas[1 + i], s.volumes[i], keys[i])
  {
    ConfReads(s, keys);
    StanzaForVolume(s, keys, i);
    VolumeStanzaIsRight(s.volumes[i], keys[i]);
  }

  /** `start` and then a setting for each of the numbers. */
  function WithNumbers(start: seq<string>, keys: seq<string>, numbers: seq<nat>): seq<string>
    requires |keys| == |numbers|
    decreases |keys|
  {
    if keys == [] then start
    else
      var k := |keys| - 1;
      WithNumbers(start, keys[..k], numbers[..k]) + Setting(keys[k], numbers[k])
  }

  lemma {:induction false} NumbersGive(start: seq<string>, keys: seq<string>, numbers: seq<nat>, j: nat)
    requires |keys| == |numbers| && AllApart(keys) && j < |keys|
    requires ValueOf(start, keys[j]) == None
    ensures ValueOf(WithNumbers(start, keys, numbers), keys[j]) == Numeral(numbers[j])
    decreases |keys|
  {
    var k := |keys| - 1;
    var less := WithNumbers(start, keys[..k], numbers[..k]);
    SettingGives(less, keys[k], numbers[k], keys[j]);
    if j < k {
      NumbersGive(start, keys[..k], numbers[..k], j);
    } else {
      NumbersLeave(start, keys[..k], numbers[..k], keys[k]);
    }
  }

  lemma {:induction false} NumbersLeave(start: seq<string>, keys: seq<string>, numbers: seq<nat>, other: string)
    requires |keys| == |numbers| && forall j :: 0 <= j < |keys| ==> Apart(keys[j], other)
    ensures ValueOf(WithNumbers(start, keys, numbers), other) == ValueOf(start, other)
    decreases |keys|
  {
    if keys != [] {
      var k := |keys| - 1;
      SettingGives(WithNumbers(start, keys[..k], numbers[..k]), keys[k], numbers[k], other);
      NumbersLeave(start, keys[..k], numbers[..k], other);
    }
  }

  lemma HeadApart(head: string, keys: seq<string>, j: nat)
    requires AllApart([head] + keys) && j < |keys|
    ensures Apart(head, keys[j]) && Apart(keys[j], head)
  {
    assert ([head] + keys)[0] == head && ([head] + keys)[1 + j] == keys[j];
  }

  /** One location and then numbers: each key has what it is given. */
  lemma LocationAndNumbersGive(start: seq<string>, remote: string, keys: seq<string>, numbers: seq<nat>)
    requires |keys| == |numbers| && AllApart([remote] + keys)
    requires forall j :: 0 <= j < |keys| ==> ValueOf(start, keys[j]) == None
    ensures var settings := WithNumbers(start, keys, numbers);
      && ValueOf(settings, remote) == ValueOf(start, remote)
      && forall j :: 0 <= j < |keys| ==> ValueOf(settings, keys[j]) == Numeral(numbers[j])
  {
    var all := [remote] + keys;
    forall i, j | 0 <= i < j < |keys| ensures Apart(keys[i], keys[j]) && Apart(keys[j], keys[i]) {
      assert all[1 + i] == keys[i] && all[1 + j] == keys[j];
    }
    forall j | 0 <= j < |keys| ensures Apart(keys[j], remote) {
      HeadApart(remote, keys, j);
    }
    NumbersLeave(start, keys, numbers, remote);
    forall j | 0 <= j < |keys| ensures ValueOf(WithNumbers(start, keys, numbers), keys[j]) == Numeral(numbers[j]) {
      NumbersGive(start, keys, numbers, j);
    }
  }

  lemma WithOneMore(start: seq<string>, keys: seq<string>, numbers: seq<nat>, key: string, number: nat)
    requires |keys| == |numbers|
    ensures WithNumbers(start, keys + [key], numbers + [number])
      == WithNumbers(start, keys, numbers) + Setting(key, number)
  {
    assert (keys + [key])[..|keys|] == keys && (numbers + [number])[..|keys|] == numbers;
  }

  lemma WithTwo(start: seq<string>, a: string, m: nat, b: string, n: nat)
    ensures WithNumbers(start, [a, b], [m, n]) == start + Setting(a, m) + Setting(b, n)
  {
    var none, zero: seq<nat> := [], [];
    WithOneMore(start, none, zero, a, m);
    WithOneMore(start, [a], [m], b, n);
    assert none + [a] == [a] && zero + [m] == [m] && [a] + [b] == [a, b] && [m] + [n] == [m, n];
  }

  function One(present: bool): nat {
    if present then 1 else 0
  }

  function NumberKeys(): seq<string> {
    ["hotlist_bloom_filter_recency_hours", "hotlist_recency_secs", "maxGlobalDataSizeMB", "maxGlobalRawDataSizeMB"]
  }

  function Numbers(ix: Index): seq<nat> {
    [ix.bloomFilterRecencyHours, ix.recencySecs, ix.maxGlobalDataSizeMB, ix.maxGlobalRawDataSizeMB]
  }

  lemma SizeKeysApart(data: string, raw: string)
    requires data == "maxGlobalDataSizeMB" && raw == "maxGlobalRawDataSizeMB"
    ensures AllApart([data, raw])
  {
    ApartAt(data, raw, 9);
  }

  lemma RecencyKeysApart(bloom: string, hot: string)
    requires bloom == "hotlist_bloom_filter_recency_hours" && hot == "hotlist_recency_secs"
    ensures AllApart([bloom, hot])
  {
    ApartAt(bloom, hot, 8);
  }

  /** Keys that begin differently are apart. */
  lemma GroupsApart(a: seq<string>, b: seq<string>)
    requires AllApart(a) && AllApart(b)
    requires forall x <- a, y <- b :: x != "" && y != "" && x[0] != y[0]
    ensures AllApart(a + b)
  {
    var all := a + b;
    forall i, j | 0 <= i < j < |all| ensures Apart(all[i], all[j]) && Apart(all[j], all[i]) {
      if i < |a| <= j {
        assert a[i] in a && b[j - |a|] in b;
        ApartAt(all[i], all[j], 0);
      }
    }
  }

  lemma NumberKeysApart()
    ensures AllApart(["remotePath"] + NumberKeys())
  {
    var k := NumberKeys();
    SizeKeysApart(k[2], k[3]);
    RecencyKeysApart(k[0], k[1]);
    GroupsApart([k[0], k[1]], [k[2], k[3]]);
    assert k == [k[0], k[1]] + [k[2], k[3]];
    FirstsApart(k, "remotePath");
  }

  /** Where an index is stored, as its stanza, or the default one, says. */
  function Location(volName: string, path: string): Option<string> {
    if volName == "" then None else Some("volume:" + volName + "/" + path)
  }

  lemma RemotePathLine(volName: string, path: string)
    ensures RemotePath(volName, path) == "remotePath" + " = " + ("volume:" + volName + "/" + path)
  {
    assert "remotePath = volume:" == "remotePath" + " = " + "volume:";
  }

  lemma RemotePathGives(start: seq<string>, volName: string, path: string, other: string)
    requires ValueOf(start, "remotePath") == None
    ensures var lines := start + (if volName == "" then [] else [RemotePath(volName, path)]);
      && ValueOf(lines, "remotePath") == Location(volName, path)
      && (Apart("remotePath", other) ==> ValueOf(lines, other) == ValueOf(start, other))
  {
    if volName == "" {
      assert start + [] == start;
    } else {
      RemotePathLine(volName, path);
      OwnLine(start, "remotePath", "volume:" + volName + "/" + path);
      if Apart("remotePath", other) {
        OtherLine(start, "remotePath", "volume:" + volName + "/" + path, other);
      }
    }
  }

  /** Where an index is stored and its limits: its stanza has those that are set, and nothing else. */
  ghost predicate IndexIsRight(found: Stanza, ix: Index) {
    && found.name == ix.name
    && |found.settings| == One(ix.volName != "") + One(ix.bloomFilterRecencyHours > 0) + One(ix.recencySecs > 0)
                           + One(ix.maxGlobalDataSizeMB > 0) + One(ix.maxGlobalRawDataSizeMB > 0)
    && ValueOf(found.settings, "remotePath")
         == Location(ix.volName, if ix.remotePath != "" then ix.remotePath else "$_index_name")
    && ValueOf(found.settings, "hotlist_bloom_filter_recency_hours") == Numeral(ix.bloomFilterRecencyHours)
    && ValueOf(found.settings, "hotlist_recency_secs") == Numeral(ix.recencySecs)
    && ValueOf(found.settings, "maxGlobalDataSizeMB") == Numeral(ix.maxGlobalDataSizeMB)
    && ValueOf(found.settings, "maxGlobalRawDataSizeMB") == Numeral(ix.maxGlobalRawDataSizeMB)
  }

  lemma IndexSettingsAre(ix: Index)
    ensures RemotePathLines(ix) + NumericSettings(ix) == WithNumbers(RemotePathLines(ix), NumberKeys(), Numbers(ix))
  {
    var r, k, n := RemotePathLines(ix), NumberKeys(), Numbers(ix);
    WithTwo(r, k[0], n[0], k[1], n[1]);
    WithOneMore(r, [k[0], k[1]], [n[0], n[1]], k[2], n[2]);
    WithOneMore(r, [k[0], k[1], k[2]], [n[0], n[1], n[2]], k[3], n[3]);
    assert [k[0], k[1]] + [k[2]] == [k[0], k[1], k[2]] && [n[0], n[1]] + [n[2]] == [n[0], n[1], n[2]];
    assert [k[0], k[1], k[2]] + [k[3]] == k && [n[0], n[1], n[2]] + [n[3]] == n;
  }

  lemma IndexLocation(ix: Index, key: string)
    ensures ValueOf(RemotePathLines(ix), "remotePath")
      == Location(ix.volName, if ix.remotePath != "" then ix.remotePath else INDEX_NAME)
    ensures Apart("remotePath", key) ==> ValueOf(RemotePathLines(ix), key) == None
  {
    var none: seq<string> := [];
    RemotePathGives(none, ix.volName, if ix.remotePath != "" then ix.remotePath else INDEX_NAME, key);
    assert none + RemotePathLines(ix) == RemotePathLines(ix);
  }

  lemma IndexStanzaIsRight(ix: Index)
    ensures IndexIsRight(Stanza(ix.name, RemotePathLines(ix) + NumericSettings(ix)), ix)
  {
    var start, k := RemotePathLines(ix), NumberKeys();
    NumberKeysApart();
    forall j: nat | j < |k| ensures ValueOf(start, k[j]) == None {
      HeadApart("remotePath", k, j);
      IndexLocation(ix, k[j]);
    }
    LocationAndNumbersGive(start, "remotePath", k, Numbers(ix));
    IndexLocation(ix, "remotePath");
    IndexSettingsAre(ix);
    var found := WithNumbers(start, k, Numbers(ix));
    assert ValueOf(found, k[0]) == Numeral(Numbers(ix)[0]) && ValueOf(found, k[1]) == Numeral(Numbers(ix)[1]);
    assert ValueOf(found, k[2]) == Numeral(Numbers(ix)[2]) && ValueOf(found, k[3]) == Numeral(Numbers(ix)[3]);
  }

  lemma IndexesAreRight(s: Spec, keys: seq<Keys>, i: nat)
    requires OneLiners(s, keys) && i < |s.indexes|
    ensures var stanzas := ReadConf(Conf(s, keys));
      |stanzas| == 1 + |s.volumes| + |s.indexes| && IndexIsRight(stanzas[1 + |s.volumes| + i], s.indexes[i])
  {
    ConfReads(s, keys);
    StanzaForIndex(s, keys, i);
    IndexStanzaIsRight(s.indexes[i]);
  }

  function FixedKeys(): seq<string> {
    ["repFactor", "maxDataSize", "homePath", "coldPath", "thawedPath"]
  }

  function FixedValues(): seq<string> {
    ["auto", "auto", "$SPLUNK_DB/$_index_name/db", "$SPLUNK_DB/$_index_name/colddb", "$SPLUNK_DB/$_index_name/thaweddb"]
  }

  lemma FixedKeysApart()
    ensures AllApart(FixedKeys())
  {
    var k := FixedKeys();
    FirstsApart([k[4]], k[3]);
    FirstsApart([k[3]] + [k[4]], k[2]);
    FirstsApart([k[2]] + ([k[3]] + [k[4]]), k[1]);
    FirstsApart([k[1]] + ([k[2]] + ([k[3]] + [k[4]])), k[0]);
    assert k == [k[0]] + ([k[1]] + ([k[2]] + ([k[3]] + [k[4]])));
  }

  /** No fixed key is one of those that depend on the spec. */
  lemma FixedApartFrom(key: string, j: nat)
    requires key == "remotePath" || key == "maxGlobalDataSizeMB" || key == "maxGlobalRawDataSizeMB"
    requires j < 5
    ensures Apart(FixedKeys()[j], key) && Apart(key, FixedKeys()[j])
  {
    var i := if j == 0 then 2 else if j == 1 then 3 else 0;
    ApartAt(FixedKeys()[j], key, i);
  }

  lemma FixedLinesGive()
    ensures Gives(FixedSettings(), FixedKeys(), FixedValues())
  {
    assert "repFactor = auto" == "repFactor" + " = " + "auto";
    assert "maxDataSize = auto" == "maxDataSize" + " = " + "auto";
    HomePath();
    ColdPath();
    ThawedPath();
  }

  lemma HomePath()
    ensures "homePath = $SPLUNK_DB/" + INDEX_NAME + "/db" == "homePath" + " = " + "$SPLUNK_DB/$_index_name/db"
  {
  }

  lemma ColdPath()
    ensures "coldPath = $SPLUNK_DB/" + INDEX_NAME + "/colddb" == "coldPath" + " = " + "$SPLUNK_DB/$_index_name/colddb"
  {
  }

  lemma ThawedPath()
    ensures "thawedPath = $SPLUNK_DB/" + INDEX_NAME + "/thaweddb"
      == "thawedPath" + " = " + "$SPLUNK_DB/$_index_name/thaweddb"
  {
  }

  /** The default stanza has the fixed settings, the limits and the location that are set, and nothing else. */
  ghost predicate DefaultsAreRight(found: Stanza, d: Defaults) {
    && found.name == "default"
    && |found.settings|
         == 5 + One(d.volName != "") + One(d.maxGlobalDataSizeMB > 0) + One(d.maxGlobalRawDataSizeMB > 0)
    && (forall j :: 0 <= j < 5 ==> ValueOf(found.settings, FixedKeys()[j]) == Some(FixedValues()[j]))
    && ValueOf(found.settings, "remotePath") == Location(d.volName, "$_index_name")
    && ValueOf(found.settings, "maxGlobalDataSizeMB") == Numeral(d.maxGlobalDataSizeMB)
    && ValueOf(found.settings, "maxGlobalRawDataSizeMB") == Numeral(d.maxGlobalRawDataSizeMB)
  }

  function SizeKeys(): seq<string> {
    ["maxGlobalDataSizeMB", "maxGlobalRawDataSizeMB"]
  }

  /** The default settings before its limits. */
  function LocatedDefaults(d: Defaults): seq<string> {
    FixedSettings() + (if d.volName == "" then [] else [RemotePath(d.volName, INDEX_NAME)])
  }

  lemma LocatedDefaultsGive(d: Defaults)
    ensures ValueOf(LocatedDefaults(d), "remotePath") == Location(d.volName, INDEX_NAME)
    ensures forall j :: 0 <= j < 5 ==> ValueOf(LocatedDefaults(d), FixedKeys()[j]) == Some(FixedValues()[j])
  {
    var f, k, v := FixedSettings(), FixedKeys(), FixedValues();
    FixedKeysApart();
    FixedLinesGive();
    forall j: nat | j < |k| ensures Apart(k[j], "remotePath") {
      FixedApartFrom("remotePath", j);
    }
    TableLacks(f, k, v, "remotePath");
    RemotePathGives(f, d.volName, INDEX_NAME, "");
    forall j: nat | j < |k| ensures ValueOf(LocatedDefaults(d), k[j]) == Some(v[j]) {
      FixedApartFrom("remotePath", j);
      TableGives(f, k, v, j);
      RemotePathGives(f, d.volName, INDEX_NAME, k[j]);
    }
  }

  lemma LocatedDefaultsLack(d: Defaults, key: string)
    requires key == "maxGlobalDataSizeMB" || key == "maxGlobalRawDataSizeMB"
    ensures ValueOf(LocatedDefaults(d), key) == None
  {
    var f, k, v := FixedSettings(), FixedKeys(), FixedValues();
    FixedLinesGive();
    forall j: nat | j < |k| ensures Apart(k[j], key) {
      FixedApartFrom(key, j);
    }
    TableLacks(f, k, v, key);
    forall j: nat | j < |k| ensures Apart(k[j], "remotePath") {
      FixedApartFrom("remotePath", j);
    }
    TableLacks(f, k, v, "remotePath");
    ApartAt("remotePath", key, 0);
    RemotePathGives(f, d.volName, INDEX_NAME, key);
  }

  lemma DefaultSettingsAre(d: Defaults)
    ensures FixedSettings() + OptionalDefaults(d)
      == WithNumbers(LocatedDefaults(d), SizeKeys(), [d.maxGlobalDataSizeMB, d.maxGlobalRawDataSizeMB])
  {
    var k := SizeKeys();
    WithTwo(LocatedDefaults(d), k[0], d.maxGlobalDataSizeMB, k[1], d.maxGlobalRawDataSizeMB);
  }

  lemma DefaultsStanzaIsRight(d: Defaults)
    ensures DefaultsAreRight(Stanza("default", FixedSettings() + OptionalDefaults(d)), d)
  {
    var start, k, n := LocatedDefaults(d), SizeKeys(), [d.maxGlobalDataSizeMB, d.maxGlobalRawDataSizeMB];
    LocatedDefaultsGive(d);
    LocatedDefaultsLack(d, k[0]);
    LocatedDefaultsLack(d, k[1]);
    SizeKeysApart(k[0], k[1]);
    FirstsApart(k, "remotePath");
    LocationAndNumbersGive(start, "remotePath", k, n);
    forall j: nat | j < 5 ensures ValueOf(WithNumbers(start, k, n), FixedKeys()[j]) == Some(FixedValues()[j]) {
      FixedApartFrom(k[0], j);
      FixedApartFrom(k[1], j);
      NumbersLeave(start, k, n, FixedKeys()[j]);
    }
    DefaultSettingsAre(d);
    assert ValueOf(WithNumbers(start, k, n), k[0]) == Numeral(n[0]);
    assert ValueOf(WithNumbers(start, k, n), k[1]) == Numeral(n[1]);
  }

  lemma DefaultsAreRead(s: Spec, keys: seq<Keys>)
    requires OneLiners(s, keys)
    ensures var stanzas := ReadConf(Conf(s, keys));
      stanzas != [] && DefaultsAreRight(stanzas[0], s.defaults)
  {
    ConfReads(s, keys);
    DefaultsBlock(s.defaults);
    DefaultsStanzaIsRight(s.defaults);
  }
}
