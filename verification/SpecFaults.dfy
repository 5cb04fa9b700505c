/** Which fault validation reports, of all those a SmartStore spec has. */
module SpecFaults {
  import opened Wrappers
  import opened SmartStore

  /** The spec has this fault, whatever others it has. */
  ghost predicate Has(s: Spec, fault: Fault) {
    match fault
    case VolumesMissing => s.indexes != [] && s.volumes == []
    case DuplicateVolume(i) => i < |s.volumes| && exists k :: 0 <= k < i && s.volumes[k].name == s.volumes[i].name
    case VolumeNameMissing(i) => i < |s.volumes| && s.volumes[i].name == ""
    case EndpointMissing(i) => i < |s.volumes| && s.volumes[i].endpoint == ""
    case PathMissing(i) => i < |s.volumes| && s.volumes[i].path == ""
    case SecretRefMissing(i) => i < |s.volumes| && s.volumes[i].secretRef == ""
    case UnknownDefaultVolume => s.defaults.volName != "" && forall v <- s.volumes :: v.name != s.defaults.volName
    case DuplicateIndex(i) => i < |s.indexes| && exists k :: 0 <= k < i && s.indexes[k].name == s.indexes[i].name
    case IndexNameMissing(i) => i < |s.indexes| && s.indexes[i].name == ""
    case IndexVolumeMissing(i) => i < |s.indexes| && s.indexes[i].volName == "" && s.defaults.volName == ""
    case UnknownIndexVolume(i) =>
      i < |s.indexes| && s.indexes[i].volName != "" && forall v <- s.volumes :: v.name != s.indexes[i].volName
  }

  /** The part of the spec a fault is in. */
  function Part(fault: Fault): nat {
    match fault
    case VolumesMissing => 0
    case DuplicateVolume(_) => 1
    case VolumeNameMissing(_) => 1
    case EndpointMissing(_) => 1
    case PathMissing(_) => 1
    case SecretRefMissing(_) => 1
    case UnknownDefaultVolume => 2
    case _ => 3
  }

  /** The volume or index a fault is in. */
  function Position(fault: Fault): nat {
    if fault.VolumesMissing? || fault.UnknownDefaultVolume? then 0 else fault.i
  }

  /** The order in which one volume, or one index, is looked at. */
  function Turn(fault: Fault): nat {
    match fault
    case VolumeNameMissing(_) => 1
    case EndpointMissing(_) => 2
    case PathMissing(_) => 3
    case SecretRefMissing(_) => 4
    case IndexNameMissing(_) => 1
    case IndexVolumeMissing(_) => 2
    case UnknownIndexVolume(_) => 3
    case _ => 0
  }

  predicate Precedes(a: Fault, b: Fault) {
    || Part(a) < Part(b)
    || (Part(a) == Part(b) && Position(a) < Position(b))
    || (Part(a) == Part(b) && Position(a) == Position(b) && Turn(a) < Turn(b))
  }

  /** No two faults take the same place in the order. */
  lemma PrecedesIsTotal(a: Fault, b: Fault)
    ensures a == b || Precedes(a, b) || Precedes(b, a)
    ensures !(Precedes(a, b) && Precedes(b, a))
  {
  }

  /** `fault`, if any, is the first in order of the faults of `part` at `i` that the spec has. */
  ghost predicate IsFirstAt(s: Spec, part: nat, i: nat, fault: Option<Fault>) {
    match fault
    case None => forall g :: Has(s, g) ==> !(Part(g) == part && Position(g) == i)
    case Some(f) =>
      && Has(s, f) && Part(f) == part && Position(f) == i
      && forall g :: Has(s, g) && Part(g) == part && Position(g) == i ==> Turn(f) <= Turn(g)
  }

  lemma VolumeFaultIsFirst(s: Spec, i: nat)
    requires i < |s.volumes|
    ensures IsFirstAt(s, 1, i, VolumeFault(s.volumes, i))
  {
    ExistsBefore(s.volumes, i, s.volumes[i].name);
  }

  lemma IndexFaultIsFirst(s: Spec, i: nat)
    requires i < |s.indexes|
    ensures IsFirstAt(s, 3, i, IndexFault(s, i))
  {
  }

  /** ... the first in order of those of `part` from position `i` on. */
  ghost predicate IsFirstFrom(s: Spec, part: nat, i: nat, fault: Option<Fault>) {
    match fault
    case None => forall g :: Has(s, g) ==> !(Part(g) == part && Position(g) >= i)
    case Some(f) =>
      && Has(s, f) && Part(f) == part && Position(f) >= i
      && forall g :: Has(s, g) && Part(g) == part && Position(g) >= i ==> !Precedes(g, f)
  }

  lemma {:induction false} FirstVolumeFaultIs(s: Spec, i: nat)
    requires i <= |s.volumes|
    ensures IsFirstFrom(s, 1, i, FirstVolumeFault(s.volumes, i))
    decreases |s.volumes| - i
  {
    if i < |s.volumes| {
      VolumeFaultIsFirst(s, i);
      FirstVolumeFaultIs(s, i + 1);
    }
  }

  lemma {:induction false} FirstIndexFaultIs(s: Spec, i: nat)
    requires i <= |s.indexes|
    ensures IsFirstFrom(s, 3, i, FirstIndexFault(s, i))
    decreases |s.indexes| - i
  {
    if i < |s.indexes| {
      IndexFaultIsFirst(s, i);
      FirstIndexFaultIs(s, i + 1);
    }
  }

  /**
   Validation reports the first of the spec's faults: volumes missing, then the volumes one by one, then the
   default volume, then the indexes one by one. It reports none exactly when there is none.
   */
  lemma ReportsFirstFault(s: Spec)
    ensures FirstFault(s).None? <==> forall f :: !Has(s, f)
    ensures FirstFault(s).Some? ==>
      Has(s, FirstFault(s).value) && forall g :: Has(s, g) ==> !Precedes(g, FirstFault(s).value)
  {
    FirstVolumeFaultIs(s, 0);
    FirstIndexFaultIs(s, 0);
    if FirstFault(s).Some? {
      assert Has(s, FirstFault(s).value);
    }
    forall f | FirstFault(s).None? ensures !Has(s, f) {
      assert Part(f) == 2 ==> f == UnknownDefaultVolume;
    }
  }
}
