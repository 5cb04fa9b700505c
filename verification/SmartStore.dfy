/** The SmartStore part of a spec: its validation, and the indexes.conf text generated from it. */
module SmartStore {
  import opened Wrappers
  import opened Text
  import opened Decimal

  datatype Volume = Volume(name: string, endpoint: string, path: string, secretRef: string)

  datatype Index = Index(
    name: string,
    remotePath: string,
    volName: string,
    bloomFilterRecencyHours: nat,
    recencySecs: nat,
    maxGlobalDataSizeMB: nat,
    maxGlobalRawDataSizeMB: nat)

  datatype Defaults = Defaults(volName: string, maxGlobalDataSizeMB: nat, maxGlobalRawDataSizeMB: nat)

  datatype Spec = Spec(volumes: seq<Volume>, indexes: seq<Index>, defaults: Defaults)

  /** Why a spec is turned down; `i` is the position of the volume or index. */
  datatype Fault =
    | VolumesMissing
    | DuplicateVolume(i: nat)
    | VolumeNameMissing(i: nat)
    | EndpointMissing(i: nat)
    | PathMissing(i: nat)
    | SecretRefMissing(i: nat)
    | UnknownDefaultVolume
    | DuplicateIndex(i: nat)
    | IndexNameMissing(i: nat)
    | IndexVolumeMissing(i: nat)
    | UnknownIndexVolume(i: nat)

  predicate IsConfigured(s: Spec) {
    s.indexes != [] || s.volumes != [] || s.defaults.volName != ""
  }

  predicate VolumeExists(volumes: seq<Volume>, name: string) {
    exists v <- volumes :: v.name == name
  }

  /** What is wrong with volume `i`, given those before it. */
  function VolumeFault(volumes: seq<Volume>, i: nat): Option<Fault>
    requires i < |volumes|
  {
    var v := volumes[i];
    if VolumeExists(volumes[..i], v.name) then Some(DuplicateVolume(i))
    else if v.name == "" then Some(VolumeNameMissing(i))
    else if v.endpoint == "" then Some(EndpointMissing(i))
    else if v.path == "" then Some(PathMissing(i))
    else if v.secretRef == "" then Some(SecretRefMissing(i))
    else None
  }

  function IndexFault(s: Spec, i: nat): Option<Fault>
    requires i < |s.indexes|
  {
    var ix := s.indexes[i];
    if exists k :: 0 <= k < i && s.indexes[k].name == ix.name then Some(DuplicateIndex(i))
    else if ix.name == "" then Some(IndexNameMissing(i))
    else if ix.volName == "" && s.defaults.volName == "" then Some(IndexVolumeMissing(i))
    else if ix.volName != "" && !VolumeExists(s.volumes, ix.volName) then Some(UnknownIndexVolume(i))
    else None
  }

  function FirstVolumeFault(volumes: seq<Volume>, i: nat): Option<Fault>
    requires i <= |volumes|
    decreases |volumes| - i
  {
    if i == |volumes| then None
    else if VolumeFault(volumes, i).Some? then VolumeFault(volumes, i)
    else FirstVolumeFault(volumes, i + 1)
  }

  function FirstIndexFault(s: Spec, i: nat): Option<Fault>
    requires i <= |s.indexes|
    decreases |s.indexes| - i
  {
    if i == |s.indexes| then None
    else if IndexFault(s, i).Some? then IndexFault(s, i)
    else FirstIndexFault(s, i + 1)
  }

  function FirstFault(s: Spec): Option<Fault> {
    if !IsConfigured(s) then None
    else if s.indexes != [] && s.volumes == [] then Some(VolumesMissing)
    else
      var fault := FirstVolumeFault(s.volumes, 0);
      if fault.Some? then fault
      else if s.defaults.volName != "" && !VolumeExists(s.volumes, s.defaults.volName) then Some(UnknownDefaultVolume)
      else FirstIndexFault(s, 0)
  }

  ghost predicate ValidVolumes(volumes: seq<Volume>) {
    && (forall i :: 0 <= i < |volumes| ==>
          volumes[i].name != "" && volumes[i].endpoint != "" && volumes[i].path != "" && volumes[i].secretRef != "")
    && (forall i, j :: 0 <= i < j < |volumes| ==> volumes[i].name != volumes[j].name)
  }

  predicate ValidIndex(s: Spec, ix: Index) {
    && ix.name != ""
    && (ix.volName == "" ==> s.defaults.volName != "")
    && (ix.volName != "" ==> VolumeExists(s.volumes, ix.volName))
  }

  /** A spec the rest of the code can rely on. */
  ghost predicate Valid(s: Spec) {
    && (s.indexes != [] ==> s.volumes != [])
    && ValidVolumes(s.volumes)
    && (s.defaults.volName != "" ==> VolumeExists(s.volumes, s.defaults.volName))
    && (forall i :: 0 <= i < |s.indexes| ==> ValidIndex(s, s.indexes[i]))
    && (forall i, j :: 0 <= i < j < |s.indexes| ==> s.indexes[i].name != s.indexes[j].name)
  }

  method CheckIfVolumeExists(volumes: seq<Volume>, name: string) returns (at: Option<nat>)
    ensures at.None? <==> !VolumeExists(volumes, name)
    ensures at.Some? ==> (at.value < |volumes| && volumes[at.value].name == name
      && forall k :: 0 <= k < at.value ==> volumes[k].name != name)
  {
    for i := 0 to |volumes|
      invariant forall k :: 0 <= k < i ==> volumes[k].name != name
    {
      if volumes[i].name == name {
        return Some(i);
      }
    }
    return None;
  }

  method ValidateSplunkSmartstoreSpec(s: Spec) returns (fault: Option<Fault>)
    ensures fault == FirstFault(s)
  {
    if !IsConfigured(s) { return None; }
    if |s.indexes| > 0 && |s.volumes| == 0 { return Some(VolumesMissing); }
    fault := ValidateVolumes(s.volumes);
    if fault.Some? { return; }
    if s.defaults.volName != "" {
      var at := CheckIfVolumeExists(s.volumes, s.defaults.volName);
      if at.None? { return Some(UnknownDefaultVolume); }
    }
    fault := ValidateIndexes(s);
  }

  method ValidateVolumes(volumes: seq<Volume>) returns (fault: Option<Fault>)
    ensures fault == FirstVolumeFault(volumes, 0)
  {
    var duplicateChecker: map<string, bool> := map[];
    for i := 0 to |volumes|
      invariant forall name :: name in duplicateChecker <==> VolumeExists(volumes[..i], name)
      invariant FirstVolumeFault(volumes, 0) == FirstVolumeFault(volumes, i)
    {
      var v := volumes[i];
      if v.name in duplicateChecker { return Some(DuplicateVolume(i)); }
      duplicateChecker := duplicateChecker[v.name := true];
      if v.name == "" { return Some(VolumeNameMissing(i)); }
      if v.endpoint == "" { return Some(EndpointMissing(i)); }
      if v.path == "" { return Some(PathMissing(i)); }
      if v.secretRef == "" { return Some(SecretRefMissing(i)); }
      assert volumes[..i + 1] == volumes[..i] + [v];
    }
    return None;
  }

  method ValidateIndexes(s: Spec) returns (fault: Option<Fault>)
    ensures fault == FirstIndexFault(s, 0)
  {
    var duplicateChecker: map<string, bool> := map[];
    for i := 0 to |s.indexes|
      invariant forall name :: name in duplicateChecker <==> exists k :: 0 <= k < i && s.indexes[k].name == name
      invariant FirstIndexFault(s, 0) == FirstIndexFault(s, i)
    {
      var ix := s.indexes[i];
      if ix.name in duplicateChecker { return Some(DuplicateIndex(i)); }
      duplicateChecker := duplicateChecker[ix.name := true];
      if ix.name == "" { return Some(IndexNameMissing(i)); }
      if ix.volName == "" && s.defaults.volName == "" { return Some(IndexVolumeMissing(i)); }
      if ix.volName != "" {
        var at := CheckIfVolumeExists(s.volumes, ix.volName);
        if at.None? { return Some(UnknownIndexVolume(i)); }
      }
    }
    return None;
  }

  lemma {:induction false} NoVolumeFault(volumes: seq<Volume>, i: nat)
    requires i <= |volumes|
    ensures FirstVolumeFault(volumes, i).None? <==> forall k :: i <= k < |volumes| ==> VolumeFault(volumes, k).None?
    decreases |volumes| - i
  {
    if i < |volumes| {
      NoVolumeFault(volumes, i + 1);
    }
  }

  lemma {:induction false} NoIndexFault(s: Spec, i: nat)
    requires i <= |s.indexes|
    ensures FirstIndexFault(s, i).None? <==> forall k :: i <= k < |s.indexes| ==> IndexFault(s, k).None?
    decreases |s.indexes| - i
  {
    if i < |s.indexes| {
      NoIndexFault(s, i + 1);
    }
  }

  lemma ExistsBefore(volumes: seq<Volume>, i: nat, name: string)
    requires i <= |volumes|
    ensures VolumeExists(volumes[..i], name) <==> exists k :: 0 <= k < i && volumes[k].name == name
  {
    forall k | 0 <= k < i && volumes[k].name == name ensures VolumeExists(volumes[..i], name) {
      assert volumes[..i][k] in volumes[..i];
    }
  }

  lemma VolumesAreValid(volumes: seq<Volume>)
    ensures ValidVolumes(volumes) <==> forall k :: 0 <= k < |volumes| ==> VolumeFault(volumes, k).None?
  {
    forall k: nat | k < |volumes|
      ensures VolumeFault(volumes, k).None? <==>
        && (forall j :: 0 <= j < k ==> volumes[j].name != volumes[k].name)
        && volumes[k].name != "" && volumes[k].endpoint != "" && volumes[k].path != "" && volumes[k].secretRef != ""
    {
      ExistsBefore(volumes, k, volumes[k].name);
    }
  }

  lemma IndexesAreValid(s: Spec)
    ensures (forall k :: 0 <= k < |s.indexes| ==> IndexFault(s, k).None?) <==>
      && (forall i :: 0 <= i < |s.indexes| ==> ValidIndex(s, s.indexes[i]))
      && (forall i, j :: 0 <= i < j < |s.indexes| ==> s.indexes[i].name != s.indexes[j].name)
  {
    forall k: nat | k < |s.indexes|
      ensures IndexFault(s, k).None? <==>
        ValidIndex(s, s.indexes[k]) && forall j :: 0 <= j < k ==> s.indexes[j].name != s.indexes[k].name
    {
    }
  }

  /** Validation turns down exactly the specs that are not valid. */
  lemma ValidationIsExact(s: Spec)
    ensures FirstFault(s).None? <==> Valid(s)
  {
    NoVolumeFault(s.volumes, 0);
    NoIndexFault(s, 0);
    VolumesAreValid(s.volumes);
    IndexesAreValid(s);
  }
}
