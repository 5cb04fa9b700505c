/**
 Merging a revised pod template into the stored one: which differences count, and that a merge leaves
 nothing for the next one to do.
 */
module PodTemplates {
  import opened Slices
  import opened Wrappers
  import opened Text
  import opened StatefulSets

  /** `other` stands for the fields that are neither compared nor merged. */
  datatype Container = Container(
    image: string,
    ports: seq<Element>,
    volumeMounts: seq<Element>,
    resources: string,
    env: seq<Element>,
    other: string)

  datatype PodTemplateSpec = PodTemplateSpec(
    affinity: string,
    tolerations: seq<Element>,
    schedulerName: string,
    volumes: seq<Element>,
    initContainers: seq<Container>,
    containers: seq<Container>,
    annotations: map<string, string>,
    labels: map<string, string>,
    other: string)

  predicate SameElements(a: seq<Element>, b: seq<Element>) {
    multiset(a) == multiset(b)
  }

  /** The environment of monitoring console pods is not compared. */
  predicate SkipsEnv(name: string) {
    Contains(name, "monitoring-console")
  }

  predicate ContainersAgree(c: Container, r: Container, skipEnv: bool) {
    && c.image == r.image && SameElements(c.ports, r.ports) && SameElements(c.volumeMounts, r.volumeMounts)
    && c.resources == r.resources && (skipEnv || SameElements(c.env, r.env))
  }

  predicate ContainerReordered(c: Container, d: Container) {
    ContainersAgree(c, d, false) && c.other == d.other
  }

  ghost predicate ContainerDetermined(c: Container, skipEnv: bool) {
    && KeysDetermine(multiset(c.ports)) && KeysDetermine(multiset(c.volumeMounts))
    && (skipEnv || KeysDetermine(multiset(c.env)))
  }

  predicate MetaAgrees(c: PodTemplateSpec, r: PodTemplateSpec) {
    c.annotations == r.annotations && c.labels == r.labels
  }

  predicate AllContainersAgree(c: seq<Container>, r: seq<Container>, skipEnv: bool) {
    |c| == |r| && forall i :: 0 <= i < |c| ==> ContainersAgree(c[i], r[i], skipEnv)
  }

  predicate SpecsAgree(c: PodTemplateSpec, r: PodTemplateSpec, skipEnv: bool) {
    && c.affinity == r.affinity && SameElements(c.tolerations, r.tolerations)
    && c.schedulerName == r.schedulerName && SameElements(c.volumes, r.volumes)
    && |c.initContainers| == |r.initContainers|
    && AllContainersAgree(c.containers, r.containers, skipEnv)
  }

  /** No difference that counts: the compared fields agree up to the order of slices. */
  predicate Agree(c: PodTemplateSpec, r: PodTemplateSpec, name: string) {
    SpecsAgree(c, r, SkipsEnv(name)) && MetaAgrees(c, r)
  }

  predicate AllReordered(c: seq<Container>, d: seq<Container>) {
    |c| == |d| && forall i :: 0 <= i < |c| ==> ContainerReordered(c[i], d[i])
  }

  /** The same template but for the order of slices. */
  predicate Reordered(c: PodTemplateSpec, d: PodTemplateSpec) {
    && c.affinity == d.affinity && SameElements(c.tolerations, d.tolerations)
    && c.schedulerName == d.schedulerName && SameElements(c.volumes, d.volumes)
    && c.initContainers == d.initContainers && AllReordered(c.containers, d.containers)
    && MetaAgrees(c, d) && c.other == d.other
  }

  ghost predicate AllDetermined(c: seq<Container>, skipEnv: bool) {
    forall i :: 0 <= i < |c| ==> ContainerDetermined(c[i], skipEnv)
  }

  /** Within each compared slice, keys determine elements. */
  ghost predicate Determined(c: PodTemplateSpec, name: string) {
    && KeysDetermine(multiset(c.tolerations)) && KeysDetermine(multiset(c.volumes))
    && AllDetermined(c.containers, SkipsEnv(name))
  }

  /** What a merge of a container leaves: `r1` and, if nothing changed, `c1` are reorderings. */
  ghost predicate ContainerMerged(c: Container, r: Container, c1: Container, r1: Container, skipEnv: bool,
                                  changed: bool) {
    && ContainerReordered(r1, r) && ContainersAgree(c1, r, skipEnv) && c1.other == c.other
    && (skipEnv ==> c1.env == c.env)
    && (!changed ==> ContainersAgree(c, r, skipEnv) && ContainerReordered(c1, c))
    && (ContainersAgree(c, r, skipEnv) && ContainerDetermined(c, skipEnv) ==> !changed)
  }

  /** One compared slice, merged. */
  ghost predicate SliceMerged(a: seq<Element>, b: seq<Element>, a1: seq<Element>, b1: seq<Element>, changed: bool) {
    && SameElements(b1, b) && SameElements(a1, b)
    && (!changed ==> SameElements(a, b))
    && (SameElements(a, b) && KeysDetermine(multiset(a)) ==> !changed)
  }

  method MergeSlice(a: seq<Element>, b: seq<Element>) returns (a1: seq<Element>, b1: seq<Element>, changed: bool)
    ensures SliceMerged(a, b, a1, b1, changed)
  {
    changed, a1, b1 := CompareSlices(a, b);
    if changed {
      a1 := b1;
    }
  }

  method MergeContainer(c: Container, r: Container, skipEnv: bool)
    returns (c1: Container, r1: Container, changed: bool)
    ensures ContainerMerged(c, r, c1, r1, skipEnv, changed)
  {
    var ports, revisedPorts, portsChanged := MergeSlice(c.ports, r.ports);
    var mounts, revisedMounts, mountsChanged := MergeSlice(c.volumeMounts, r.volumeMounts);
    var env, revisedEnv, envChanged := c.env, r.env, false;
    if !skipEnv {
      env, revisedEnv, envChanged := MergeSlice(c.env, r.env);
    }
    c1 := Container(r.image, ports, mounts, r.resources, env, c.other);
    r1 := Container(r.image, revisedPorts, revisedMounts, r.resources, revisedEnv, r.other);
    changed := c.image != r.image || portsChanged || mountsChanged || c.resources != r.resources || envChanged;
  }

  /** What a merge of the pod specs leaves. */
  ghost predicate SpecMerged(c: PodTemplateSpec, r: PodTemplateSpec, c1: PodTemplateSpec, r1: PodTemplateSpec,
                             skipEnv: bool, changed: bool) {
    && Reordered(r1, r) && SpecsAgree(c1, r, skipEnv)
    && c1.other == c.other && c1.annotations == c.annotations && c1.labels == c.labels
    && c1.initContainers == (if |c.initContainers| == |r.initContainers| then c.initContainers else r.initContainers)
    && (if |c.containers| == |r.containers| then KeepsUncompared(c.containers, c1.containers, skipEnv)
        else c1.containers == r.containers)
    && (!changed ==> SpecsAgree(c, r, skipEnv) && Reordered(c1, c))
    && (SpecsAgree(c, r, skipEnv) && SpecDetermined(c, skipEnv) ==> !changed)
  }

  ghost predicate SpecDetermined(c: PodTemplateSpec, skipEnv: bool) {
    KeysDetermine(multiset(c.tolerations)) && KeysDetermine(multiset(c.volumes)) && AllDetermined(c.containers, skipEnv)
  }

  ghost predicate KeepsUncompared(c: seq<Container>, c1: seq<Container>, skipEnv: bool) {
    |c| == |c1| && forall i :: 0 <= i < |c| ==> c1[i].other == c[i].other && (skipEnv ==> c1[i].env == c[i].env)
  }

  class PodTemplate {
    var affinity: string
    var tolerations: seq<Element>
    var schedulerName: string
    var volumes: seq<Element>
    var initContainers: seq<Container>
    var containers: seq<Container>
    var annotations: map<string, string>
    var labels: map<string, string>
    var other: string

    constructor (t: PodTemplateSpec)
      ensures Value() == t
    {
      affinity, tolerations, schedulerName, volumes := t.affinity, t.tolerations, t.schedulerName, t.volumes;
      initContainers, containers := t.initContainers, t.containers;
      annotations, labels, other := t.annotations, t.labels, t.other;
    }

    /** Overwrites the template. */
    method Assign(t: PodTemplateSpec)
      modifies this
      ensures Value() == t
    {
      affinity, tolerations, schedulerName, volumes := t.affinity, t.tolerations, t.schedulerName, t.volumes;
      initContainers, containers := t.initContainers, t.containers;
      annotations, labels, other := t.annotations, t.labels, t.other;
    }

    function Value(): PodTemplateSpec
      reads this
    {
      PodTemplateSpec(affinity, tolerations, schedulerName, volumes, initContainers, containers, annotations, labels,
                      other)
    }

    method MergePodMetaUpdates(revised: PodTemplate) returns (changed: bool)
      modifies this`annotations, this`labels
      ensures Value() == old(Value()).(annotations := revised.annotations, labels := revised.labels)
      ensures changed <==> !MetaAgrees(old(Value()), old(revised.Value()))
    {
      changed := false;
      if annotations != revised.annotations {
        annotations, changed := revised.annotations, true;
      }
      if labels != revised.labels {
        labels, changed := revised.labels, true;
      }
    }

    /** The loop of MergePodSpecUpdates, for equally many containers. */
    method MergeContainers(revised: PodTemplate, skipEnv: bool) returns (changed: bool)
      requires this != revised && |containers| == |revised.containers|
      modifies this`containers, revised`containers
      ensures AllMerged(old(containers), old(revised.containers), containers, revised.containers, skipEnv, changed)
    {
      changed := false;
      var n := |containers|;
      ghost var flags: seq<bool> := [];
      for i := 0 to n
        invariant |containers| == |revised.containers| == n && |flags| == i
        invariant forall k :: i <= k < n ==>
          containers[k] == old(containers)[k] && revised.containers[k] == old(revised.containers)[k]
        invariant forall k :: 0 <= k < i ==>
          ContainerMerged(old(containers)[k], old(revised.containers)[k], containers[k], revised.containers[k], skipEnv,
                          flags[k])
        invariant !changed <==> forall k :: 0 <= k < i ==> !flags[k]
      {
        var c, r, differ := MergeContainer(containers[i], revised.containers[i], skipEnv);
        containers, revised.containers := containers[i := c], revised.containers[i := r];
        changed, flags := changed || differ, flags + [differ];
      }
      EachMerged(old(containers), old(revised.containers), containers, revised.containers, skipEnv, flags, changed);
    }

    method MergeContainerLists(revised: PodTemplate, skipEnv: bool) returns (changed: bool)
      requires this != revised
      modifies this`containers, revised`containers
      ensures ListsMerged(old(containers), old(revised.containers), containers, revised.containers, skipEnv, changed)
    {
      if |containers| != |revised.containers| {
        containers := revised.containers;
        return true;
      }
      changed := MergeContainers(revised, skipEnv);
    }

    method MergeFields(revised: PodTemplate) returns (changed: bool)
      requires this != revised
      modifies this`affinity, this`schedulerName, this`initContainers
      ensures affinity == revised.affinity && schedulerName == revised.schedulerName
      ensures initContainers
        == if |old(initContainers)| == |revised.initContainers| then old(initContainers) else revised.initContainers
      ensures changed <==>
        || old(affinity) != revised.affinity || old(schedulerName) != revised.schedulerName
        || |old(initContainers)| != |revised.initContainers|
    {
      changed := false;
      if affinity != revised.affinity {
        affinity, changed := revised.affinity, true;
      }
      if schedulerName != revised.schedulerName {
        schedulerName, changed := revised.schedulerName, true;
      }
      if |initContainers| != |revised.initContainers| {
        initContainers, changed := revised.initContainers, true;
      }
    }

    method MergeSliceFields(revised: PodTemplate) returns (tolerationsChanged: bool, volumesChanged: bool)
      requires this != revised
      modifies this`tolerations, this`volumes, revised`tolerations, revised`volumes
      ensures SliceMerged(old(tolerations), old(revised.tolerations), tolerations, revised.tolerations,
                          tolerationsChanged)
      ensures SliceMerged(old(volumes), old(revised.volumes), volumes, revised.volumes, volumesChanged)
    {
      tolerations, revised.tolerations, tolerationsChanged := MergeSlice(tolerations, revised.tolerations);
      volumes, revised.volumes, volumesChanged := MergeSlice(volumes, revised.volumes);
    }

    method MergePodSpecUpdates(revised: PodTemplate, name: string) returns (changed: bool)
      requires this != revised
      modifies this, revised
      ensures SpecMerged(old(Value()), old(revised.Value()), Value(), revised.Value(), SkipsEnv(name), changed)
    {
      var fieldsChanged := MergeFields(revised);
      var tolerationsChanged, volumesChanged := MergeSliceFields(revised);
      var containersChanged := MergeContainerLists(revised, SkipsEnv(name));
      changed := fieldsChanged || tolerationsChanged || volumesChanged || containersChanged;
      PartsMerge(old(Value()), old(revised.Value()), Value(), revised.Value(), SkipsEnv(name),
                 fieldsChanged, tolerationsChanged, volumesChanged, containersChanged);
    }

    method MergePodUpdates(revised: PodTemplate, name: string) returns (changed: bool)
      requires this != revised
      modifies this, revised
      ensures Merged(old(Value()), old(revised.Value()), Value(), revised.Value(), name, changed)
    {
      var specChanged := MergePodSpecUpdates(revised, name);
      var metaChanged := MergePodMetaUpdates(revised);
      changed := specChanged || metaChanged;
    }
  }

  ghost predicate ListsMerged(c: seq<Container>, r: seq<Container>, c1: seq<Container>, r1: seq<Container>,
                              skipEnv: bool, changed: bool) {
    if |c| == |r| then AllMerged(c, r, c1, r1, skipEnv, changed) else c1 == r && r1 == r && changed
  }

  lemma AgreeWithSelf(c: seq<Container>)
    ensures AllReordered(c, c)
  {
  }

  lemma PartsMerge(c: PodTemplateSpec, r: PodTemplateSpec, c1: PodTemplateSpec, r1: PodTemplateSpec, skipEnv: bool,
                   fields: bool, tolerations: bool, volumes: bool, containers: bool)
    requires c1 == c.(affinity := r.affinity, schedulerName := r.schedulerName,
                      initContainers :=
                        if |c.initContainers| == |r.initContainers| then c.initContainers else r.initContainers,
                      tolerations := c1.tolerations, volumes := c1.volumes, containers := c1.containers)
    requires r1 == r.(tolerations := r1.tolerations, volumes := r1.volumes, containers := r1.containers)
    requires fields <==>
      (c.affinity != r.affinity || c.schedulerName != r.schedulerName || |c.initContainers| != |r.initContainers|)
    requires SliceMerged(c.tolerations, r.tolerations, c1.tolerations, r1.tolerations, tolerations)
    requires SliceMerged(c.volumes, r.volumes, c1.volumes, r1.volumes, volumes)
    requires ListsMerged(c.containers, r.containers, c1.containers, r1.containers, skipEnv, containers)
    ensures SpecMerged(c, r, c1, r1, skipEnv, fields || tolerations || volumes || containers)
  {
    AgreeWithSelf(r.containers);
  }

  /** What a merge of the templates leaves. */
  ghost predicate Merged(c: PodTemplateSpec, r: PodTemplateSpec, c1: PodTemplateSpec, r1: PodTemplateSpec,
                         name: string, changed: bool) {
    && Reordered(r1, r) && Agree(c1, r, name) && c1.other == c.other
    && c1.initContainers == (if |c.initContainers| == |r.initContainers| then c.initContainers else r.initContainers)
    && (if |c.containers| == |r.containers| then KeepsUncompared(c.containers, c1.containers, SkipsEnv(name))
        else c1.containers == r.containers)
    && (!changed ==> Agree(c, r, name) && Reordered(c1, c))
    && (Agree(c, r, name) && Determined(c, name) ==> !changed)
  }

  ghost predicate AllMerged(c: seq<Container>, r: seq<Container>, c1: seq<Container>, r1: seq<Container>,
                            skipEnv: bool, changed: bool) {
    && AllReordered(r1, r) && AllContainersAgree(c1, r, skipEnv) && KeepsUncompared(c, c1, skipEnv)
    && (!changed ==> AllContainersAgree(c, r, skipEnv) && AllReordered(c1, c))
    && (AllContainersAgree(c, r, skipEnv) && AllDetermined(c, skipEnv) ==> !changed)
  }

  lemma EachMerged(c: seq<Container>, r: seq<Container>, c1: seq<Container>, r1: seq<Container>,
                   skipEnv: bool, flags: seq<bool>, changed: bool)
    requires |c| == |r| == |c1| == |r1| == |flags|
    requires forall k :: 0 <= k < |c| ==> ContainerMerged(c[k], r[k], c1[k], r1[k], skipEnv, flags[k])
    requires !changed <==> forall k :: 0 <= k < |c| ==> !flags[k]
    ensures AllMerged(c, r, c1, r1, skipEnv, changed)
  {
    forall k | 0 <= k < |c|
      ensures ContainerReordered(r1[k], r[k]) && ContainersAgree(c1[k], r[k], skipEnv)
      ensures c1[k].other == c[k].other && (skipEnv ==> c1[k].env == c[k].env)
      ensures !flags[k] ==> ContainersAgree(c[k], r[k], skipEnv) && ContainerReordered(c1[k], c[k])
      ensures ContainersAgree(c[k], r[k], skipEnv) && ContainerDetermined(c[k], skipEnv) ==> !flags[k]
    {
      assert ContainerMerged(c[k], r[k], c1[k], r1[k], skipEnv, flags[k]);
    }
  }
}
